/** FMLaravel's RecordRelation: a relation whose rows arrive inside the
    parent's FileMaker metadata (portal rows) rather than from a query of
    their own.  initRelation learns the related field names from the first
    model that has rows, match rebuilds every model's rows under those names,
    binds them and drops them from the metadata, and getResults re-fetches
    the parent with the relation eager-loaded. */
module Relations {
  import opened Wrappers
  import opened OrderedMap
  import opened Strings
  import opened PhpValue
  import opened Models
  import opened Extraction
  import opened Queries
  import opened Builders

  /** A model's state: its class's declarations and its three fields. */
  datatype ModelState = ModelState(cfg: ModelConfig, attributes: OMap<string, Value>,
                                   relations: map<string, Bound>, relatedTable: Option<string>)

  function StateOf(m: Model): ModelState
    reads m
  {
    ModelState(m.cfg, m.attributes, m.relations, m.relatedTable)
  }

  /** The models' states, in order. */
  function Snap(models: seq<Model>): (s: seq<ModelState>)
    reads models
    ensures |s| == |models|
    ensures forall j :: 0 <= j < |models| ==> s[j] == StateOf(models[j])
  {
    if models == [] then [] else [StateOf(models[0])] + Snap(models[1..])
  }

  // ---------------------------------------------------------------------
  // initRelation

  /** `getFileMakerMetaData('related')[$relation]` on an attribute map: the
      metadata object is created first where it is missing. */
  function RelatedRows(cfg: ModelConfig, attrs: OMap<string, Value>, relation: string): (r: Result<Value>)
    ensures EnsureMeta(cfg, attrs).Failure? ==> r == Failure(UnsupportedContainerValue)
    ensures EnsureMeta(cfg, attrs).Success? ==>
      var related := MetaRead(cfg, EnsureMeta(cfg, attrs).value, Some(RelatedRecordsKey));
      && (r.Failure? <==> IsObject(related))
      && (r.Failure? ==> r.error == ObjectAsArray)
      && (related.Arr? && StrKey(relation) in Keys(related.entries) ==>
            r == Success(Get(related.entries, StrKey(relation)).value))
      && (related.Str? ==> r.Success? && r.value.Str?)
  {
    match EnsureMeta(cfg, attrs)
    case Failure(e) => Failure(e)
    case Success(a) => Lookup(MetaRead(cfg, a, Some(RelatedRecordsKey)), StrKey(relation))
  }

  /** A string where the related sets belong is read at a string offset:
      the result is a string, which counts as one row, so array_first picks
      that model. */
  lemma StringRelatedCountsAsRows(cfg: ModelConfig, attrs: OMap<string, Value>, relation: string)
    requires EnsureMeta(cfg, attrs).Success?
    requires MetaRead(cfg, EnsureMeta(cfg, attrs).value, Some(RelatedRecordsKey)).Str?
    ensures RelatedRows(cfg, attrs, relation).Success? && Count(RelatedRows(cfg, attrs, relation).value) == 1
  {
  }

  /** The attribute map after getFileMakerMetaData was called on it. */
  function Touched(cfg: ModelConfig, attrs: OMap<string, Value>): (a: OMap<string, Value>)
    ensures EnsureMeta(cfg, attrs).Success? ==> a == EnsureMeta(cfg, attrs).value
    ensures EnsureMeta(cfg, attrs).Failure? ==> a == attrs
  {
    match EnsureMeta(cfg, attrs)
    case Success(a) => a
    case Failure(_) => attrs
  }

  /** A model's state after getFileMakerMetaData was called on it. */
  function Touch(m: ModelState): ModelState {
    m.(attributes := Touched(m.cfg, m.attributes))
  }

  /** What array_first's test does to one model: the rows
      getFileMakerMetaData('related')[$relation] gives, and the model after
      that call. */
  datatype Probe = Probe(rows: Result<Value>, after: ModelState)

  function ProbeOne(m: ModelState, relation: string): Probe {
    Probe(RelatedRows(m.cfg, m.attributes, relation), Touch(m))
  }

  /** The probe of each model in turn. */
  function Probes(snap: seq<ModelState>, relation: string): (ps: seq<Probe>)
    ensures |ps| == |snap|
  {
    if snap == [] then []
    else [ProbeOne(snap[0], relation)] + Probes(snap[1..], relation)
  }

  lemma {:induction false} ProbesAt(snap: seq<ModelState>, relation: string, j: nat)
    requires j < |snap|
    ensures Probes(snap, relation)[j] == ProbeOne(snap[j], relation)
  {
    if j > 0 {
      ProbesAt(snap[1..], relation, j - 1);
    }
  }

  /** How array_first ends: on a model with rows, past the last model, or
      on a model whose metadata could not be created. */
  datatype Scan = Found(index: nat, rows: Value) | NotFound | Broken(index: nat, error: Error)

  /** The models array_first asks, the last one included. */
  function Visited(s: Scan, n: nat): nat {
    match s
    case Found(k, _) => k + 1
    case Broken(k, _) => k + 1
    case NotFound => n
  }

  /** array_first from position i on, over what each model gives; the test
      is `(bool)count(...)`. */
  function FirstWithRows(ps: seq<Probe>, i: nat): (s: Scan)
    requires i <= |ps|
    decreases |ps| - i
  {
    if i == |ps| then NotFound
    else if ps[i].rows.Failure? then Broken(i, ps[i].rows.error)
    else if Count(ps[i].rows.value) > 0 then Found(i, ps[i].rows.value)
    else FirstWithRows(ps, i + 1)
  }

  /** array_first finds the first model with rows: every model before it has
      none; the search stops early only where the metadata cannot be read. */
  lemma {:induction false} FirstWithRowsIsFirst(ps: seq<Probe>, i: nat)
    requires i <= |ps|
    ensures var s := FirstWithRows(ps, i);
      && (s.Found? ==> i <= s.index < |ps| && ps[s.index].rows == Success(s.rows) && Count(s.rows) > 0)
      && (s.Broken? ==> i <= s.index < |ps| && ps[s.index].rows == Failure(s.error))
      && i <= Visited(s, |ps|) <= |ps|
      && forall j :: i <= j < Visited(s, |ps|) && (s.NotFound? || j + 1 < Visited(s, |ps|)) ==>
           ps[j].rows.Success? && Count(ps[j].rows.value) == 0
    decreases |ps| - i
  {
    if i < |ps| && ps[i].rows.Success? && Count(ps[i].rows.value) == 0 {
      FirstWithRowsIsFirst(ps, i + 1);
    }
  }

  /** getRelatedRecordsInfo($relation)['table'] . '::' */
  function TablePrefix(parent: ModelConfig, relation: string): (p: string)
    ensures |p| >= 2 && p[|p| - 2..] == "::"
    ensures TruthyString(relation) && Get(parent.relatedRecordsInfo, relation).Some? ==>
      p == Get(parent.relatedRecordsInfo, relation).value.table + "::"
  {
    var table :=
      match RelatedRecordsInfo(parent, Some(relation))
      case OneInfo(Some(info)) => info.table
      case OneInfo(None) => ""
        // null['table'] is null
      case AllInfo(all) => if Get(all, "table").Some? then "Array" else "";
        // a falsy name reads the whole table; an entry named "table" is an
        // array, which concatenates as "Array"
    table + "::"
  }

  /** The keys of the first related row, `array_keys($rows[0])`, as
      strings. When `$rows[0]` is not an array, array_keys gives null (with a
      warning), written None; an object `$rows` throws. */
  function FirstRowKeys(rows: Value): (ks: Result<Option<seq<string>>>)
    ensures ks.Failure? <==> IsObject(rows)
    ensures ks.Failure? ==> ks.error == ObjectAsArray
    ensures ks.Success? ==> (ks.value.Some? <==> Lookup(rows, IntKey(0)).value.Arr?)
    ensures ks.Success? && ks.value.Some? ==> |ks.value.value| == |Lookup(rows, IntKey(0)).value.entries|
  {
    match Lookup(rows, IntKey(0))
    case Failure(e) => Failure(e)
    case Success(first) => Success(if first.Arr? then Some(KeyStrings(Keys(first.entries))) else None)
  }

  function KeyStrings(ks: seq<Key>): (ss: seq<string>)
    ensures |ss| == |ks| && forall i :: 0 <= i < |ks| ==> ss[i] == KeyString(ks[i])
  {
    if ks == [] then [] else [KeyString(ks[0])] + KeyStrings(ks[1..])
  }

  /** str_replace($prefix, '', $keys) */
  function StripAll(keys: seq<string>, prefix: string): (r: seq<string>)
    ensures |r| == |keys| && forall i :: 0 <= i < |keys| ==> r[i] == ReplaceAll(keys[i], prefix, "")
  {
    if keys == [] then [] else [ReplaceAll(keys[0], prefix, "")] + StripAll(keys[1..], prefix)
  }

  /** The field keys initRelation learns from a model's related rows:
      str_replace of the prefix over what array_keys gave. str_replace makes
      "" of a null subject, and array_combine refuses "" exactly as it
      refuses null, so None stands for both. */
  function FieldKeysFrom(parent: ModelConfig, relation: string, rows: Value): Result<Option<seq<string>>> {
    match FirstRowKeys(rows)
    case Failure(e) => Failure(e)
    case Success(None) => Success(None)
    case Success(Some(keys)) => Success(Some(StripAll(keys, TablePrefix(parent, relation))))
  }

  /** A first related row that is not an array (rows keyed by anything but
      0, or a scalar in place of the rows) gives no field keys, and every row
      match then rebuilds is hydrated empty. */
  lemma NonArrayFirstRowGivesNoKeys(parent: ModelConfig, relation: string, rows: Value,
                                    matched: seq<Value>, foreignTable: string)
    requires !IsObject(rows) && !Lookup(rows, IntKey(0)).value.Arr?
    ensures FieldKeysFrom(parent, relation, rows) == Success(None)
    ensures forall i :: 0 <= i < |matched| ==> Children(None, matched, foreignTable)[i] == Child([], foreignTable)
  {
    forall i | 0 <= i < |matched| ensures Children(None, matched, foreignTable)[i] == Child([], foreignTable) {
      ChildrenWithoutKeys(None, matched, foreignTable, i);
    }
  }

  /** Rows keyed by a string: count gives 1, so the model is picked, but
      there is no row 0, and no field keys are learnt. */
  lemma KeyedRowsGiveNoKeys(parent: ModelConfig, relation: string)
    ensures var rows := Arr([(StrKey("k"), Arr([(StrKey("f"), Str("1"))]))]);
      Count(rows) == 1 && FieldKeysFrom(parent, relation, rows) == Success(None)
  {
    var rows := Arr([(StrKey("k"), Arr([(StrKey("f"), Str("1"))]))]);
    assert Keys(rows.entries) == [StrKey("k")];
    assert Lookup(rows, IntKey(0)) == Success(Null);
  }

  /** A key that is the prefix followed by a field name loses the prefix. */
  lemma StripLeadingPrefix(prefix: string, field: string)
    requires prefix != []
    requires forall i :: 0 <= i <= |field| ==> !OccursAt(field, prefix, i)
    ensures ReplaceAll(prefix + field, prefix, "") == field
  {
    ReplaceAllHead(prefix, field, "");
    ReplaceAllAbsent(field, prefix, "");
  }

  /** The prefix is removed wherever it occurs, not only at the start. */
  lemma StripInnerPrefix(before: string, prefix: string, after: string)
    requires prefix != []
    requires forall i :: 0 <= i < |before| ==> !OccursAt(before + prefix + after, prefix, i)
    ensures ReplaceAll(before + prefix + after, prefix, "") == before + ReplaceAll(after, prefix, "")
  {
    ReplaceAllInner(before, prefix, after, "");
    assert before + "" == before;
  }

  /** For rows as processArray builds them, the field keys are the first
      row's field names, in order, each with the prefix removed. */
  lemma FieldKeysOfExtractedRows(parent: ModelConfig, relation: string, rows: seq<Row>)
    requires rows != []
    ensures var fk := FieldKeysFrom(parent, relation, ListOf(RowValues(rows)));
      && fk.Success? && fk.value.Some?
      && |fk.value.value| == |rows[0]|
      && forall i :: 0 <= i < |rows[0]| ==> fk.value.value[i] == ReplaceAll(rows[0][i].0, TablePrefix(parent, relation), "")
  {
    var vs := RowValues(rows);
    var list := ListOf(vs);
    assert list.entries == Indexed(vs, 0);
    assert list.entries[0] == (IntKey(0), vs[0]);
    assert Lookup(list, IntKey(0)) == Success(vs[0]);
    assert vs[0] == RowValue(rows[0]);
  }

  // ---------------------------------------------------------------------
  // match

  /** `array_combine($this->fieldKeys, $v)` under PHP 7: null (with a
      warning) when the keys or the row are not arrays, false (with a
      warning) when their lengths differ, otherwise the combined array. */
  function CombineRow(fieldKeys: Option<seq<string>>, row: Value): (v: Value)
    ensures v.Arr? <==> fieldKeys.Some? && row.Arr? && |fieldKeys.value| == |row.entries|
    ensures v.Null? <==> fieldKeys.None? || !row.Arr?
    ensures !v.Arr? && !v.Null? ==> v == Bool(false)
  {
    if fieldKeys.None? || !row.Arr? then Null
    else
      match Combine(StrKeys(fieldKeys.value), Values(row.entries))
      case None => Bool(false)
      case Some(m) => Arr(m)
  }

  /** array_map of array_combine over the rows, then hydrate, which builds
      each model from `(array)` of its combined row, and setRelatedTable on
      each of them. */
  function Children(fieldKeys: Option<seq<string>>, rows: seq<Value>, foreignTable: string): (cs: seq<Child>)
    ensures |cs| == |rows|
  {
    seq(|rows|, i requires 0 <= i < |rows| => Child(ToArray(CombineRow(fieldKeys, rows[i])), foreignTable))
  }

  /** Every rebuilt model has the foreign table as its related table. */
  lemma ChildrenTagged(fieldKeys: Option<seq<string>>, rows: seq<Value>, foreignTable: string)
    ensures forall c :: c in Children(fieldKeys, rows, foreignTable) ==> c.relatedTable == foreignTable
  {
    var cs := Children(fieldKeys, rows, foreignTable);
    forall c | c in cs ensures c.relatedTable == foreignTable {
      var i :| 0 <= i < |cs| && cs[i] == c;
    }
  }

  /** Rows with as many values as there are (distinct) field keys each pair
      the i-th key with the i-th value. */
  lemma ChildrenZipByPosition(keys: seq<string>, rows: seq<Value>, foreignTable: string)
    requires Distinct(keys)
    requires forall i :: 0 <= i < |rows| ==> rows[i].Arr? && |rows[i].entries| == |keys|
    ensures var cs := Children(Some(keys), rows, foreignTable);
      forall i :: 0 <= i < |rows| ==>
        && Keys(cs[i].attributes) == StrKeys(keys)
        && Values(cs[i].attributes) == Values(rows[i].entries)
        && cs[i].relatedTable == foreignTable
  {
    var cs := Children(Some(keys), rows, foreignTable);
    forall i | 0 <= i < |rows|
      ensures && Keys(cs[i].attributes) == StrKeys(keys)
              && Values(cs[i].attributes) == Values(rows[i].entries)
    {
      assert cs[i].attributes == ToArray(CombineRow(Some(keys), rows[i]));
      CombineRowZips(keys, rows[i]);
    }
  }

  /** One row of as many values as there are distinct keys combines to the
      keys paired with its values, in order. */
  lemma CombineRowZips(keys: seq<string>, row: Value)
    requires Distinct(keys) && row.Arr? && |row.entries| == |keys|
    ensures var m := ToArray(CombineRow(Some(keys), row));
      Keys(m) == StrKeys(keys) && Values(m) == Values(row.entries)
  {
    StrKeysDistinct(keys);
    var vs := Values(row.entries);
    CombineDistinct(StrKeys(keys), vs);
    var m := Combine(StrKeys(keys), vs).value;
    assert CombineRow(Some(keys), row) == Arr(m);
  }

  /** A row whose number of values differs from the number of keys does not
      stop match: array_combine returns false, and the model is hydrated
      from `(array)false`, a single entry 0 => false. */
  lemma ChildrenLengthMismatch(keys: seq<string>, rows: seq<Value>, foreignTable: string, i: nat)
    requires i < |rows| && rows[i].Arr? && |rows[i].entries| != |keys|
    ensures Children(Some(keys), rows, foreignTable)[i] == Child([(IntKey(0), Bool(false))], foreignTable)
  {
  }

  /** Without field keys (no model had rows), or for a row that is not an
      array, array_combine returns null and the model is hydrated empty. */
  lemma ChildrenWithoutKeys(fieldKeys: Option<seq<string>>, rows: seq<Value>, foreignTable: string, i: nat)
    requires i < |rows| && (fieldKeys.None? || !rows[i].Arr?)
    ensures Children(fieldKeys, rows, foreignTable)[i] == Child([], foreignTable)
  {
  }

  /** What setRelation stores: the whole collection for type `many`, its
      first element (or null) for any other type. */
  function BoundOf(relationType: string, children: seq<Child>): (b: Bound)
    ensures relationType == "many" ==> b == Many(children)
    ensures relationType != "many" && children != [] ==> b == One(Some(children[0]))
    ensures relationType != "many" && children == [] ==> b == One(None)
  {
    if relationType == "many" then Many(children)
    else One(if children == [] then None else Some(children[0]))
  }

  /** The attribute map after `unset(getFileMakerMetaData()->related[$relation])`. */
  function Unbind(cfg: ModelConfig, attrs: OMap<string, Value>, relation: string): OMap<string, Value> {
    var meta := AttributeOf(attrs, MetaKey(cfg));
    var related := Prop(meta, RelatedRecordsKey);
    if meta.Obj? && related.Arr? then
      Put(attrs, MetaKey(cfg), Obj(Put(meta.props, StrKey(RelatedRecordsKey),
                                      Arr(Remove(related.entries, StrKey(relation))))))
    else attrs
  }

  /** The entry of the relation leaves the metadata; every other related
      entry, every other metadata entry and every other attribute stays. */
  lemma UnbindRemovesOnlyRelation(cfg: ModelConfig, attrs: OMap<string, Value>, relation: string)
    requires AttributeOf(attrs, MetaKey(cfg)).Obj?
    requires Prop(AttributeOf(attrs, MetaKey(cfg)), RelatedRecordsKey).Arr?
    ensures var after := Unbind(cfg, attrs, relation);
      var related := MetaRead(cfg, after, Some(RelatedRecordsKey));
      && related.Arr? && StrKey(relation) !in Keys(related.entries)
      && (forall other :: other != relation ==>
            Lookup(related, StrKey(other)) == Lookup(MetaRead(cfg, attrs, Some(RelatedRecordsKey)), StrKey(other)))
      && (forall p :: p != RelatedRecordsKey ==> MetaRead(cfg, after, Some(p)) == MetaRead(cfg, attrs, Some(p)))
      && (forall f :: f != MetaKey(cfg) ==> Get(after, f) == Get(attrs, f))
  {
    var meta := AttributeOf(attrs, MetaKey(cfg));
    var oldRelated := Prop(meta, RelatedRecordsKey);
    var removed := Remove(oldRelated.entries, StrKey(relation));
    var props := Put(meta.props, StrKey(RelatedRecordsKey), Arr(removed));
    var after := Unbind(cfg, attrs, relation);
    assert after == Put(attrs, MetaKey(cfg), Obj(props));
    UnbindMeta(cfg, attrs, after, props);
    PutObjectEntry(attrs, MetaKey(cfg), meta.props, RelatedRecordsKey, Arr(removed));
    RemoveKeepsOthers(oldRelated.entries, relation);
    assert meta == Obj(meta.props);
  }

  /** Removing one key of an array leaves the lookup of every other key. */
  lemma RemoveKeepsOthers(entries: OMap<Key, Value>, relation: string)
    ensures forall other :: other != relation ==>
      Lookup(Arr(Remove(entries, StrKey(relation))), StrKey(other)) == Lookup(Arr(entries), StrKey(other))
  {
    forall other | other != relation
      ensures Lookup(Arr(Remove(entries, StrKey(relation))), StrKey(other)) == Lookup(Arr(entries), StrKey(other))
    {
      assert StrKey(other) != StrKey(relation);
    }
  }

  /** Reading the metadata back after it was replaced by an object. */
  lemma UnbindMeta(cfg: ModelConfig, attrs: OMap<string, Value>, after: OMap<string, Value>, props: OMap<Key, Value>)
    requires after == Put(attrs, MetaKey(cfg), Obj(props))
    ensures AttributeOf(after, MetaKey(cfg)) == Obj(props)
    ensures forall p :: MetaRead(cfg, after, Some(p)) == Prop(Obj(props), p)
    ensures forall f :: f != MetaKey(cfg) ==> Get(after, f) == Get(attrs, f)
  {
  }

  /** One model's step of match, on its state before the step. */
  datatype MatchStep = MatchStep(result: Result<()>, attributes: OMap<string, Value>, relations: map<string, Bound>)

  function MatchOne(fieldKeys: Option<seq<string>>, relationType: string, foreignTable: string,
                    m: ModelState, relation: string): MatchStep
  {
    match EnsureMeta(m.cfg, m.attributes)
    case Failure(e) => MatchStep(Failure(e), m.attributes, m.relations)
    case Success(a) =>
      match Lookup(MetaRead(m.cfg, a, Some(RelatedRecordsKey)), StrKey(relation))
      case Failure(e) => MatchStep(Failure(e), a, m.relations)
      case Success(records) =>
        if !records.Arr? then MatchStep(Failure(MissingRelatedRecords(relation)), a, m.relations)
        else
          var children := Children(fieldKeys, Values(records.entries), foreignTable);
          MatchStep(Success(()), Unbind(m.cfg, a, relation), m.relations[relation := BoundOf(relationType, children)])
  }

  /** A model's state once its step has run. */
  function Applied(m: ModelState, step: MatchStep): ModelState {
    m.(attributes := step.attributes, relations := step.relations)
  }

  /** A successful step binds the rebuilt rows, leaves every other binding
      alone, and removes the relation's entry (and only it) from the metadata. */
  lemma MatchOneBinds(fieldKeys: Option<seq<string>>, relationType: string, foreignTable: string,
                      m: ModelState, relation: string)
    requires MatchOne(fieldKeys, relationType, foreignTable, m, relation).result.Success?
    ensures EnsureMeta(m.cfg, m.attributes).Success?
    ensures var a := EnsureMeta(m.cfg, m.attributes).value;
      var read := Lookup(MetaRead(m.cfg, a, Some(RelatedRecordsKey)), StrKey(relation));
      read.Success? && read.value.Arr?
    ensures var step := MatchOne(fieldKeys, relationType, foreignTable, m, relation);
      var a := EnsureMeta(m.cfg, m.attributes).value;
      var records := Lookup(MetaRead(m.cfg, a, Some(RelatedRecordsKey)), StrKey(relation)).value;
      var children := Children(fieldKeys, Values(records.entries), foreignTable);
      && step.relations == m.relations[relation := BoundOf(relationType, children)]
      && (forall c :: c in children ==> c.relatedTable == foreignTable)
      && StrKey(relation) !in Keys(MetaRead(m.cfg, step.attributes, Some(RelatedRecordsKey)).entries)
      && (forall other :: other != relation ==>
            Lookup(MetaRead(m.cfg, step.attributes, Some(RelatedRecordsKey)), StrKey(other))
            == Lookup(MetaRead(m.cfg, a, Some(RelatedRecordsKey)), StrKey(other)))
      && (forall f :: f != MetaKey(m.cfg) ==> Get(step.attributes, f) == Get(m.attributes, f))
  {
    var a := EnsureMeta(m.cfg, m.attributes).value;
    var records := Lookup(MetaRead(m.cfg, a, Some(RelatedRecordsKey)), StrKey(relation)).value;
    assert records.Arr?;
    UnbindRemovesOnlyRelation(m.cfg, a, relation);
    EnsureMetaKeepsOthers(m.cfg, m.attributes);
    ChildrenTagged(fieldKeys, Values(records.entries), foreignTable);
  }

  /** A model's step fails exactly when its metadata cannot be read or holds
      no array of rows for the relation; a row that does not fit the field
      keys never makes it fail. */
  lemma MatchOneFails(fieldKeys: Option<seq<string>>, relationType: string, foreignTable: string,
                      m: ModelState, relation: string)
    ensures var step := MatchOne(fieldKeys, relationType, foreignTable, m, relation);
      && (EnsureMeta(m.cfg, m.attributes).Failure? ==> step.result == Failure(EnsureMeta(m.cfg, m.attributes).error))
      && (EnsureMeta(m.cfg, m.attributes).Success? ==>
            var related := MetaRead(m.cfg, EnsureMeta(m.cfg, m.attributes).value, Some(RelatedRecordsKey));
            var records := Lookup(related, StrKey(relation));
            && (IsObject(related) ==> step.result == Failure(ObjectAsArray))
            && (!IsObject(related) ==>
                  && (step.result.Failure? <==> !records.value.Arr?)
                  && (step.result.Failure? ==> step.result.error == MissingRelatedRecords(relation))))
  {
  }

  /** Each model's step of match. */
  function Steps(fieldKeys: Option<seq<string>>, relationType: string, foreignTable: string,
                 snap: seq<ModelState>, relation: string): (st: seq<MatchStep>)
    ensures |st| == |snap|
  {
    if snap == [] then []
    else [MatchOne(fieldKeys, relationType, foreignTable, snap[0], relation)]
         + Steps(fieldKeys, relationType, foreignTable, snap[1..], relation)
  }

  lemma {:induction false} StepsAt(fieldKeys: Option<seq<string>>, relationType: string, foreignTable: string,
                                   snap: seq<ModelState>, relation: string, j: nat)
    requires j < |snap|
    ensures Steps(fieldKeys, relationType, foreignTable, snap, relation)[j]
         == MatchOne(fieldKeys, relationType, foreignTable, snap[j], relation)
  {
    if j > 0 {
      StepsAt(fieldKeys, relationType, foreignTable, snap[1..], relation, j - 1);
    }
  }

  /** How array_map over the models ends: after the last one, or at the
      first step that throws. */
  datatype Halt = Completed | Halted(index: nat, error: Error)

  /** The models whose step ran, the failing one included. */
  function Reached(h: Halt, n: nat): nat {
    match h
    case Halted(k, _) => k + 1
    case Completed => n
  }

  function FirstFailure(steps: seq<MatchStep>, i: nat): (h: Halt)
    requires i <= |steps|
    decreases |steps| - i
  {
    if i == |steps| then Completed
    else if steps[i].result.Failure? then Halted(i, steps[i].result.error)
    else FirstFailure(steps, i + 1)
  }

  /** match stops at the first failing step; every earlier step succeeded. */
  lemma {:induction false} FirstFailureIsFirst(steps: seq<MatchStep>, i: nat)
    requires i <= |steps|
    ensures var h := FirstFailure(steps, i);
      && i <= Reached(h, |steps|) <= |steps|
      && (h.Halted? ==> i <= h.index < |steps| && steps[h.index].result == Failure(h.error))
      && forall j :: i <= j < |steps| && (h.Completed? || j < h.index) ==> steps[j].result.Success?
    decreases |steps| - i
  {
    if i < |steps| && steps[i].result.Success? {
      FirstFailureIsFirst(steps, i + 1);
    }
  }

  // ---------------------------------------------------------------------
  // getResults

  /** The query the lazy path runs: the parent's class, this relation
      eager-loaded, a where on the key name and a limit of one (find). */
  datatype ParentFetch = ParentFetch(eagerLoad: seq<string>, key: Where, limit: Value)

  function LazyFetch(parent: ModelConfig, attrs: OMap<string, Value>, name: string): Result<ParentFetch> {
    var eager := EagerLoadFor(parent, AddEagerNames([], [name]));
    var id := AttributeOf(attrs, parent.keyName);
    match WhereClause(FullArgs(parent.keyName, Str("="), id, "and"), [])
    case Failure(e) => Failure(e)
    case Success(key) => Success(ParentFetch(eager, key, Int(1)))
  }

  /** The lazy path asks for the parent again by its primary key, with this
      relation eager-loaded exactly when the model declares it; a primary key
      that is null asks for a not-null key instead. A boolean key on a
      JSON-path key name makes where() throw, as it does for any query. */
  lemma LazyFetchByKey(parent: ModelConfig, attrs: OMap<string, Value>, name: string, grammarOperators: seq<string>)
    ensures var id := AttributeOf(attrs, parent.keyName);
      JsonBoolean(parent.keyName, id) ==> LazyFetch(parent, attrs, name) == Failure(ClassNotFound(ExpressionClass))
    ensures var id := AttributeOf(attrs, parent.keyName);
      !JsonBoolean(parent.keyName, id) ==> LazyFetch(parent, attrs, name).Success?
    ensures LazyFetch(parent, attrs, name).Success? ==>
      var f := LazyFetch(parent, attrs, name).value;
      var id := AttributeOf(attrs, parent.keyName);
      && f.eagerLoad == (if Get(parent.relatedRecordsInfo, name).Some? then [name] else [])
      && f.limit == Int(1)
      && Success(f.key) == WhereClause(FullArgs(parent.keyName, Str("="), id, "and"), grammarOperators)
      && (!id.Null? ==> f.key == Basic(parent.keyName, "=", id, "and"))
      && (id.Null? ==> f.key == NullTest(parent.keyName, "and", true))
  {
    assert AddEagerNames([], [name]) == [name];
    assert Strings.Lower("=") == "=";
    assert "=" in Operators;
  }

  // ---------------------------------------------------------------------
  // The relation object.

  class RecordRelation {
    const name: string
    const parent: Model
    const related: Model
      // the model whose class hydrate instantiates; its rows are Child values here
    const foreignTable: string
    const relationType: string
    var fieldKeys: Option<seq<string>>

    constructor(name: string, parent: Model, related: Model, foreignTable: string, relationType: string)
      ensures this.name == name && this.parent == parent && this.related == related
      ensures this.foreignTable == foreignTable && this.relationType == relationType
      ensures fieldKeys == None
    {
      this.name := name;
      this.parent := parent;
      this.related := related;
      this.foreignTable := foreignTable;
      this.relationType := relationType;
      fieldKeys := None;
    }

    /** initRelation($models, $relation): the field names come from the first
        model that has rows for the relation. */
    method InitRelation(models: seq<Model>, relation: string) returns (r: Result<seq<Model>>)
      requires Distinct(models)
      modifies this`fieldKeys, models
      ensures var s := FirstWithRows(Probes(old(Snap(models)), relation), 0);
        s.Broken? ==> r == Failure(s.error) && fieldKeys == old(fieldKeys)
      ensures var s := FirstWithRows(Probes(old(Snap(models)), relation), 0);
        s.NotFound? ==> r == Success(models) && fieldKeys == old(fieldKeys)
      ensures var s := FirstWithRows(Probes(old(Snap(models)), relation), 0);
        s.Found? ==>
          var keys := FieldKeysFrom(parent.cfg, relation, s.rows);
          && (keys.Failure? ==> r == Failure(keys.error) && fieldKeys == old(fieldKeys))
          && (keys.Success? ==> r == Success(models) && fieldKeys == keys.value)
          && (!IsObject(s.rows) && !Lookup(s.rows, IntKey(0)).value.Arr? ==> fieldKeys == None)
      ensures var snap := old(Snap(models));
        var ps := Probes(snap, relation);
        var s := FirstWithRows(ps, 0);
        forall j :: 0 <= j < |models| ==>
          StateOf(models[j]) == (if j < Visited(s, |snap|) then ps[j].after else snap[j])
    {
      var s := FirstModelWithRows(models, relation);
      if s.Broken? {
        return Failure(s.error);
      }
      if s.Found? {
        var keys := FieldKeysFrom(parent.cfg, relation, s.rows);
        if keys.Failure? {
          return Failure(keys.error);
        }
        fieldKeys := keys.value;
      }
      return Success(models);
    }

    /** initRelation's array_first over the models. */
    static method FirstModelWithRows(models: seq<Model>, relation: string) returns (s: Scan)
      requires Distinct(models)
      modifies models
      ensures s == FirstWithRows(Probes(old(Snap(models)), relation), 0)
      ensures forall j :: 0 <= j < |models| ==>
        StateOf(models[j]) == (if j < Visited(s, |models|) then Probes(old(Snap(models)), relation)[j].after
                               else old(Snap(models))[j])
    {
      ghost var snap := Snap(models);
      ghost var ps := Probes(snap, relation);
      DistinctIndices(models);
      var i := 0;
      while i < |models|
        invariant 0 <= i <= |models|
        invariant FirstWithRows(ps, 0) == FirstWithRows(ps, i)
        invariant forall j :: 0 <= j < i ==> StateOf(models[j]) == ps[j].after
        invariant forall j :: i <= j < |models| ==> StateOf(models[j]) == snap[j]
      {
        var rows := ProbeModel(models[i], relation, snap, i);
        if rows.Failure? {
          assert FirstWithRows(ps, i) == Broken(i, rows.error);
          return Broken(i, rows.error);
        }
        if Count(rows.value) > 0 {
          assert FirstWithRows(ps, i) == Found(i, rows.value);
          return Found(i, rows.value);
        }
        i := i + 1;
      }
      return NotFound;
    }

    /** The array_first test's read of one model. */
    static method ProbeModel(m: Model, relation: string, ghost snap: seq<ModelState>, ghost i: nat)
      returns (rows: Result<Value>)
      requires i < |snap| && StateOf(m) == snap[i]
      modifies m`attributes
      ensures rows == Probes(snap, relation)[i].rows && StateOf(m) == Probes(snap, relation)[i].after
    {
      ProbesAt(snap, relation, i);
      var meta := m.GetFileMakerMetaData(Some(RelatedRecordsKey));
      if meta.Failure? {
        return Failure(meta.error);
      }
      return Lookup(meta.value, StrKey(relation));
    }

    /** getEager: no query is needed, so the eager result is empty. */
    method GetEager() returns (r: seq<Child>)
      ensures r == []
    {
      r := [];
    }

    /** match's step on one model. */
    method MatchModel(m: Model, relation: string, ghost step: MatchStep) returns (r: Result<()>)
      requires step == MatchOne(fieldKeys, relationType, foreignTable, StateOf(m), relation)
      modifies m`attributes, m`relations
      ensures r == step.result && StateOf(m) == Applied(old(StateOf(m)), step)
    {
      var meta := m.GetFileMakerMetaData(Some(RelatedRecordsKey));
      if meta.Failure? {
        return Failure(meta.error);
      }
      var read := Lookup(meta.value, StrKey(relation));
      if read.Failure? {
        return Failure(read.error);
      }
      var records := read.value;
      if !records.Arr? {
        return Failure(MissingRelatedRecords(relation));
      }
      var children := Children(fieldKeys, Values(records.entries), foreignTable);
      m.SetRelation(relation, BoundOf(relationType, children));
      m.attributes := Unbind(m.cfg, m.attributes, relation);
      return Success(());
    }

    /** match($models, $results, $relation) */
    method Match(models: seq<Model>, relation: string) returns (r: Result<seq<Model>>)
      requires Distinct(models)
      modifies models
      ensures var snap := old(Snap(models));
        var steps := Steps(fieldKeys, relationType, foreignTable, snap, relation);
        var h := FirstFailure(steps, 0);
        && r == (if h.Halted? then Failure(h.error) else Success(models))
        && forall j :: 0 <= j < |models| ==>
             StateOf(models[j]) == (if j < Reached(h, |snap|) then Applied(snap[j], steps[j]) else snap[j])
    {
      ghost var snap := Snap(models);
      ghost var steps := Steps(fieldKeys, relationType, foreignTable, snap, relation);
      DistinctIndices(models);
      var i := 0;
      while i < |models|
        invariant 0 <= i <= |models|
        invariant FirstFailure(steps, 0) == FirstFailure(steps, i)
        invariant forall j :: 0 <= j < |models| ==>
          StateOf(models[j]) == (if j < i then Applied(snap[j], steps[j]) else snap[j])
      {
        StepsAt(fieldKeys, relationType, foreignTable, snap, relation, i);
        var step := MatchModel(models[i], relation, steps[i]);
        if step.Failure? {
          return Failure(step.error);
        }
        i := i + 1;
      }
      return Success(models);
    }

    /** getResults: the lazy path. `fetch` runs the given query and returns
        the relation as bound on the fetched copy of the parent. */
    method GetResults(fetch: ParentFetch -> Option<Bound>) returns (r: Result<Option<Bound>>)
      ensures r == (match LazyFetch(parent.cfg, parent.attributes, name)
                    case Failure(e) => Failure(e)
                    case Success(f) => Success(fetch(f)))
    {
      var f := LazyFetch(parent.cfg, parent.attributes, name);
      if f.Failure? {
        return Failure(f.error);
      }
      r := Success(fetch(f.value));
    }
  }
}
