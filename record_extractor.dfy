/** RecordExtractor: turns the records of a FileMaker result into attribute
    rows for models.  Each row is the record's flattened fields plus, under
    the model's metadata key, an object holding the record id, the
    modification id and the eagerly loaded related sets, each extracted in
    turn by an extractor for the related model class. */
module Extraction {
  import opened Wrappers
  import opened OrderedMap
  import opened Strings
  import opened PhpValue
  import opened FileMakerRecord
  import opened Models

  /** An attribute row: field name to value. */
  type Row = OMap<string, Value>

  /** The model classes an application declares, by class name: what
      `new $class()` can instantiate. */
  type Registry = map<string, ModelConfig>

  /** The argument of forModel: a class name, a model instance, or some
      other value. */
  datatype ModelRef = ClassName(name: string) | Instance(cfg: ModelConfig) | NotModel

  /** The three fields of an extractor. */
  datatype ExtractorState = ExtractorState(
    metaKey: string,
    relatedRecordsInfo: OMap<string, RelationInfo>,
    eagerLoad: seq<string>)

  /** The extractor the constructor builds for a model: its metadata key,
      its related-records table and no eager loads. */
  function StateFor(cfg: ModelConfig): (st: ExtractorState)
    ensures st.metaKey == MetaKey(cfg) && st.relatedRecordsInfo == cfg.relatedRecordsInfo
    ensures st.eagerLoad == []
  {
    ExtractorState(MetaKey(cfg), cfg.relatedRecordsInfo, [])
  }

  /** forModel: a class name is instantiated first; anything that is not a
      model then is refused. */
  function ForModel(reg: Registry, m: ModelRef): (r: Result<ExtractorState>)
    ensures r.Failure? <==> m.NotModel? || (m.ClassName? && m.name !in reg)
    ensures r.Failure? ==> r.error == NotAModel
    ensures m.Instance? ==> r == Success(StateFor(m.cfg))
    ensures m.ClassName? && m.name in reg ==> r == Success(StateFor(reg[m.name]))
  {
    match m
    case ClassName(n) => if n in reg then Success(StateFor(reg[n])) else Failure(NotAModel)
    case Instance(cfg) => Success(StateFor(cfg))
    case NotModel => Failure(NotAModel)
  }

  /** The error test on a related set: the message is compared with
      `Related set "<table>" not present.` by `strpos(...) == 0`, which is
      also true when strpos returns false.  The set is taken as empty unless
      the text occurs at a position greater than 0. */
  predicate RelatedErrorSwallowed(message: string, table: string) {
    match StrPos(message, NotPresentMessage(table))
    case None => true
    case Some(p) => p == 0
  }

  function RowValue(row: Row): (v: Value)
    ensures v.Arr? && v.entries == StrKeyed(row)
  {
    Arr(StrKeyed(row))
  }

  function RowValues(rows: seq<Row>): (vs: seq<Value>)
    ensures |vs| == |rows|
    ensures forall i :: 0 <= i < |rows| ==> vs[i] == RowValue(rows[i])
  {
    if rows == [] then [] else [RowValue(rows[0])] + RowValues(rows[1..])
  }

  function StrKeys(names: seq<string>): (ks: seq<Key>)
    ensures |ks| == |names|
    ensures forall i :: 0 <= i < |names| ==> ks[i] == StrKey(names[i])
  {
    if names == [] then [] else [StrKey(names[0])] + StrKeys(names[1..])
  }

  /** The metadata object of one row. */
  function MetaObject(rec: RawRecord, related: OMap<Key, Value>): (v: Value)
    ensures Prop(v, RecordIdKey) == Str(rec.recordId)
    ensures Prop(v, ModificationIdKey) == Str(rec.modificationId)
    ensures Prop(v, RelatedRecordsKey) == Arr(related)
  {
    var last := [(StrKey(RelatedRecordsKey), Arr(related))];
    var props := [(StrKey(RecordIdKey), Str(rec.recordId)),
                  (StrKey(ModificationIdKey), Str(rec.modificationId))] + last;
    assert RecordIdKey[2] != RelatedRecordsKey[2] && ModificationIdKey[0] != RelatedRecordsKey[0];
    assert RecordIdKey[0] != ModificationIdKey[0];
    assert props[0] == (StrKey(RecordIdKey), Str(rec.recordId));
    assert props[1..][0] == (StrKey(ModificationIdKey), Str(rec.modificationId));
    assert props[1..][1..] == last;
    var k := StrKey(RelatedRecordsKey);
    assert Get(props[1..], k) == Get(last, k) == Some(Arr(related));
    assert Get(props, StrKey(RecordIdKey)) == Some(Str(rec.recordId));
    assert Get(props, StrKey(ModificationIdKey)) == Get(props[1..], StrKey(ModificationIdKey));
    Obj(props)
  }

  /** processArray: one row per record, in order; the first failure wins. */
  function ExtractRows(st: ExtractorState, reg: Registry, records: seq<RawRecord>): (r: Result<seq<Row>>)
    ensures r.Success? ==> |r.value| == |records|
    decreases |st.eagerLoad|, 2, |records|
  {
    if records == [] then Success([])
    else
      match ExtractRow(st, reg, records[0])
      case Failure(e) => Failure(e)
      case Success(row) =>
        match ExtractRows(st, reg, records[1..])
        case Failure(e) =>
          Failure(e)
        case Success(rest) =>
          Success([row] + rest)
  }

  /** The callback of processArray for one record. */
  function ExtractRow(st: ExtractorState, reg: Registry, rec: RawRecord): (r: Result<Row>)
    decreases |st.eagerLoad|, 1, 0
  {
    match RelatedEntries(st, reg, rec, 0)
    case Failure(e) => Failure(e)
    case Success(related) =>
      // the two lists have the same length, so array_combine succeeds
      var m := Combine(StrKeys(st.eagerLoad), related).value;
      Success(Put(AllFields(rec), st.metaKey, MetaObject(rec, m)))
  }

  /** The extracted related sets of the eager loads from position i on. */
  function RelatedEntries(st: ExtractorState, reg: Registry, rec: RawRecord, i: nat): (r: Result<seq<Value>>)
    requires i <= |st.eagerLoad|
    ensures r.Success? ==> |r.value| == |st.eagerLoad| - i
    decreases |st.eagerLoad|, 0, |st.eagerLoad| - i
  {
    if i == |st.eagerLoad| then Success([])
    else
      match RelatedEntry(st, reg, rec, st.eagerLoad[i])
      case Failure(e) => Failure(e)
      case Success(v) =>
        match RelatedEntries(st, reg, rec, i + 1)
        case Failure(e) => Failure(e)
        case Success(rest) => Success([v] + rest)
  }

  /** The entry at position j of the related sets is relation j's set. */
  lemma {:induction false} RelatedEntriesAt(st: ExtractorState, reg: Registry, rec: RawRecord, i: nat, j: nat)
    requires i <= j < |st.eagerLoad|
    requires RelatedEntries(st, reg, rec, i).Success?
    ensures RelatedEntry(st, reg, rec, st.eagerLoad[j]) == Success(RelatedEntries(st, reg, rec, i).value[j - i])
    decreases j - i
  {
    var head := RelatedEntry(st, reg, rec, st.eagerLoad[i]);
    var tail := RelatedEntries(st, reg, rec, i + 1);
    assert head.Success? && tail.Success?;
    assert RelatedEntries(st, reg, rec, i).value == [head.value] + tail.value;
    if i < j {
      RelatedEntriesAt(st, reg, rec, i + 1, j);
    }
  }

  /** The inner callback: the related set of one eager-loaded relation,
      extracted by a fresh extractor of the relation's model class. */
  function RelatedEntry(st: ExtractorState, reg: Registry, rec: RawRecord, relation: string): (r: Result<Value>)
    requires |st.eagerLoad| > 0
    decreases |st.eagerLoad|, 0, 0
  {
    match Get(st.relatedRecordsInfo, relation)
    case None =>
      // the missing entry reads as null, and forModel(null) refuses it
      Failure(NotAModel)
    case Some(info) =>
      match ForModel(reg, ClassName(info.cls))
      case Failure(e) => Failure(e)
      case Success(nested) =>
        match RelatedSetOf(rec, info.table)
        case SetError(code, message) =>
          if RelatedErrorSwallowed(message, info.table) then Success(ListOf([]))
          else Failure(StoreError(code, message))
        case SetRecords(rs) =>
          match ExtractRows(nested, reg, rs)
          case Failure(e) => Failure(e)
          case Success(rows) => Success(ListOf(RowValues(rows)))
  }

  /** processResult: an error result or one without fetched records gives no rows. */
  function ProcessResult(st: ExtractorState, reg: Registry, result: CommandResult): (r: Result<seq<Row>>)
    ensures result.CommandError? || result.fetchCount == 0 ==> r == Success([])
    ensures result.Records? && result.fetchCount != 0 ==> r == ExtractRows(st, reg, result.records)
  {
    if result.CommandError? || result.fetchCount == 0 then Success([])
    else ExtractRows(st, reg, result.records)
  }

  // ---------------------------------------------------------------------
  // Properties.

  /** processArray fails exactly when the row of some record fails. */
  lemma {:induction false} RowsFailOnlyWithARecord(st: ExtractorState, reg: Registry, records: seq<RawRecord>)
    ensures ExtractRows(st, reg, records).Success? <==>
      forall i :: 0 <= i < |records| ==> ExtractRow(st, reg, records[i]).Success?
    decreases |records|
  {
    if records != [] {
      var tail := records[1..];
      var h := ExtractRow(st, reg, records[0]);
      RowsFailOnlyWithARecord(st, reg, tail);
      assert ExtractRows(st, reg, records).Success? <==> h.Success? && ExtractRows(st, reg, tail).Success?;
      if forall i :: 0 <= i < |records| ==> ExtractRow(st, reg, records[i]).Success? {
        forall i | 0 <= i < |tail| ensures ExtractRow(st, reg, tail[i]).Success? {
          assert tail[i] == records[i + 1];
        }
      }
      if h.Success? && ExtractRows(st, reg, tail).Success? {
        forall i | 1 <= i < |records| ensures ExtractRow(st, reg, records[i]).Success? {
          assert records[i] == tail[i - 1];
        }
      }
    }
  }

  /** processArray keeps the records' order: the i-th row is the i-th
      record's row. */
  lemma {:induction false} RowsFollowRecords(st: ExtractorState, reg: Registry, records: seq<RawRecord>)
    requires ExtractRows(st, reg, records).Success?
    ensures forall i :: 0 <= i < |records| ==>
      ExtractRow(st, reg, records[i]) == Success(ExtractRows(st, reg, records).value[i])
    decreases |records|
  {
    if records != [] {
      var tail := records[1..];
      var h := ExtractRow(st, reg, records[0]);
      var t := ExtractRows(st, reg, tail);
      assert h.Success? && t.Success?;
      RowsFollowRecords(st, reg, tail);
      var rows := [h.value] + t.value;
      assert ExtractRows(st, reg, records) == Success(rows);
      forall i | 0 <= i < |records|
        ensures ExtractRow(st, reg, records[i]) == Success(rows[i])
      {
        if i > 0 {
          assert records[i] == tail[i - 1];
          assert rows[i] == t.value[i - 1];
        }
      }
    }
  }

  /** Each row is the record's flattened fields with the metadata slot set
      to the record's ids and related sets; every field other than the
      metadata key keeps its flattened value. */
  lemma RowShape(st: ExtractorState, reg: Registry, rec: RawRecord)
    requires ExtractRow(st, reg, rec).Success?
    ensures var row := ExtractRow(st, reg, rec).value;
      && (forall f :: f != st.metaKey ==> Get(row, f) == Get(AllFields(rec), f))
      && Get(row, st.metaKey).Some?
      && Prop(Get(row, st.metaKey).value, RecordIdKey) == Str(rec.recordId)
      && Prop(Get(row, st.metaKey).value, ModificationIdKey) == Str(rec.modificationId)
      && Prop(Get(row, st.metaKey).value, RelatedRecordsKey).Arr?
  {
  }

  /** With distinct eager-load names the related map has exactly those keys,
      in eager-load order, and the entry of each name is that relation's
      extracted set. */
  lemma RelatedKeysAreEagerLoad(st: ExtractorState, reg: Registry, rec: RawRecord)
    requires Distinct(st.eagerLoad)
    requires ExtractRow(st, reg, rec).Success?
    ensures var related := Prop(Get(ExtractRow(st, reg, rec).value, st.metaKey).value, RelatedRecordsKey).entries;
      && Keys(related) == StrKeys(st.eagerLoad)
      && forall j :: 0 <= j < |st.eagerLoad| ==>
           RelatedEntry(st, reg, rec, st.eagerLoad[j]) == Success(related[j].1)
  {
    var entries := RelatedEntries(st, reg, rec, 0).value;
    var ks := StrKeys(st.eagerLoad);
    RowRelatedMap(st, reg, rec);
    StrKeysDistinct(st.eagerLoad);
    CombineDistinct(ks, entries);
    ZippedEntries(st, reg, rec);
  }

  /** Pairing the names with their sets by position puts relation j's set
      at position j. */
  lemma ZippedEntries(st: ExtractorState, reg: Registry, rec: RawRecord)
    requires RelatedEntries(st, reg, rec, 0).Success?
    ensures var entries := RelatedEntries(st, reg, rec, 0).value;
      var m := Zip(StrKeys(st.eagerLoad), entries);
      forall j :: 0 <= j < |st.eagerLoad| ==> RelatedEntry(st, reg, rec, st.eagerLoad[j]) == Success(m[j].1)
  {
    var entries := RelatedEntries(st, reg, rec, 0).value;
    var m := Zip(StrKeys(st.eagerLoad), entries);
    forall j | 0 <= j < |st.eagerLoad|
      ensures RelatedEntry(st, reg, rec, st.eagerLoad[j]) == Success(m[j].1)
    {
      RelatedEntriesAt(st, reg, rec, 0, j);
      assert Values(m)[j] == entries[j];
    }
  }

  /** The related map of a row is array_combine of the eager-load names and
      their extracted sets. */
  lemma RowRelatedMap(st: ExtractorState, reg: Registry, rec: RawRecord)
    requires ExtractRow(st, reg, rec).Success?
    ensures RelatedEntries(st, reg, rec, 0).Success?
    ensures Combine(StrKeys(st.eagerLoad), RelatedEntries(st, reg, rec, 0).value).Some?
    ensures Prop(Get(ExtractRow(st, reg, rec).value, st.metaKey).value, RelatedRecordsKey)
      == Arr(Combine(StrKeys(st.eagerLoad), RelatedEntries(st, reg, rec, 0).value).value)
  {
    var m := Combine(StrKeys(st.eagerLoad), RelatedEntries(st, reg, rec, 0).value).value;
    var row := Put(AllFields(rec), st.metaKey, MetaObject(rec, m));
    assert ExtractRow(st, reg, rec) == Success(row);
  }

  lemma {:induction false} StrKeysDistinct(names: seq<string>)
    requires Distinct(names)
    ensures Distinct(StrKeys(names))
  {
    if names != [] {
      StrKeysDistinct(names[1..]);
      assert StrKeys(names)[1..] == StrKeys(names[1..]);
    }
  }

  /** An extractor without eager loads (every nested extractor, which
      forModel builds) gives rows whose related map is empty. */
  lemma NestedRowsHaveNoRelated(st: ExtractorState, reg: Registry, rec: RawRecord)
    requires st.eagerLoad == []
    ensures ExtractRow(st, reg, rec).Success?
    ensures Prop(Get(ExtractRow(st, reg, rec).value, st.metaKey).value, RelatedRecordsKey) == Arr([])
  {
    assert StrKeys([]) == [];
    assert Zip<Key, Value>([], []) == [];
  }

  /** Nested extractors come from forModel and so have no eager loads. */
  lemma NestedExtractorIsPlain(reg: Registry, cls: string)
    requires cls in reg
    ensures ForModel(reg, ClassName(cls)).Success?
    ensures ForModel(reg, ClassName(cls)).value.eagerLoad == []
  {
  }

  /** On a related-set error the set is empty when the not-present text
      starts the message or does not occur in it at all, and otherwise the
      error is raised with its code and message. */
  lemma RelatedSetErrorCases(st: ExtractorState, reg: Registry, rec: RawRecord, relation: string)
    requires |st.eagerLoad| > 0
    requires Get(st.relatedRecordsInfo, relation).Some?
    requires Get(st.relatedRecordsInfo, relation).value.cls in reg
    requires RelatedSetOf(rec, Get(st.relatedRecordsInfo, relation).value.table).SetError?
    ensures var table := Get(st.relatedRecordsInfo, relation).value.table;
      var e := RelatedSetOf(rec, table);
      var swallowed := OccursAt(e.message, NotPresentMessage(table), 0)
        || forall p :: 0 <= p <= |e.message| ==> !OccursAt(e.message, NotPresentMessage(table), p);
      && (swallowed ==> RelatedEntry(st, reg, rec, relation) == Success(ListOf([])))
      && (!swallowed ==> RelatedEntry(st, reg, rec, relation) == Failure(StoreError(e.code, e.message)))
  {
    var table := Get(st.relatedRecordsInfo, relation).value.table;
    var msg := RelatedSetOf(rec, table).message;
    var pat := NotPresentMessage(table);
    match StrPos(msg, pat)
    case None =>
    case Some(p) =>
      if p > 0 {
        assert OccursAt(msg, pat, p);
      }
  }

  /** A related set missing from the record is the vendor's not-present
      error, whose message starts with the text, so the relation's entry is
      an empty set. */
  lemma MissingRelatedSetIsEmpty(st: ExtractorState, reg: Registry, rec: RawRecord, relation: string, info: RelationInfo)
    requires |st.eagerLoad| > 0
    requires Get(st.relatedRecordsInfo, relation) == Some(info)
    requires ForModel(reg, ClassName(info.cls)).Success?
    requires info.table !in rec.relatedSets
    ensures RelatedEntry(st, reg, rec, relation) == Success(ListOf([]))
  {
    var message := NotPresentMessage(info.table);
    assert RelatedSetOf(rec, info.table) == SetError(0, message);
    assert OccursAt(message, message, 0);
    assert RelatedErrorSwallowed(message, info.table);
  }

  /** An undeclared relation name is refused, by forModel on the null entry. */
  lemma UndeclaredRelationFails(st: ExtractorState, reg: Registry, rec: RawRecord, relation: string)
    requires |st.eagerLoad| > 0 && relation !in Keys(st.relatedRecordsInfo)
    ensures RelatedEntry(st, reg, rec, relation) == Failure(NotAModel)
  {
  }

  // ---------------------------------------------------------------------
  // The extractor object.

  class RecordExtractor {
    const registry: Registry
    var metaKey: string
    var relatedRecordsInfo: OMap<string, RelationInfo>
    var eagerLoad: seq<string>

    function State(): (st: ExtractorState)
      reads this
      ensures st.metaKey == metaKey && st.relatedRecordsInfo == relatedRecordsInfo && st.eagerLoad == eagerLoad
    {
      ExtractorState(metaKey, relatedRecordsInfo, eagerLoad)
    }

    constructor(registry: Registry, metaKey: string, relatedRecordsInfo: OMap<string, RelationInfo>)
      ensures this.registry == registry
      ensures State() == ExtractorState(metaKey, relatedRecordsInfo, [])
    {
      this.registry := registry;
      this.metaKey := metaKey;
      this.relatedRecordsInfo := relatedRecordsInfo;
      eagerLoad := [];
    }

    /** forModel */
    static method ForModelOf(registry: Registry, m: ModelRef) returns (r: Result<RecordExtractor>)
      ensures r.Success? <==> ForModel(registry, m).Success?
      ensures r.Failure? ==> r.error == NotAModel
      ensures r.Success? ==> fresh(r.value) && r.value.registry == registry && r.value.State() == ForModel(registry, m).value
    {
      var st := ForModel(registry, m);
      if st.Failure? {
        return Failure(st.error);
      }
      var x := new RecordExtractor(registry, st.value.metaKey, st.value.relatedRecordsInfo);
      return Success(x);
    }

    /** setEagerLoad: the list is replaced as a whole. */
    method SetEagerLoad(names: seq<string>)
      modifies this`eagerLoad
      ensures eagerLoad == names
    {
      eagerLoad := names;
    }
  }
}
