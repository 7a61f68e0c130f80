/** FMLaravel's Model: the declarations a model class makes (layout, key,
    repetition and container fields, related-records table, metadata key),
    the attribute map it keeps, and the FileMaker metadata object that lives
    inside that map under the metadata key. */
module Models {
  import opened Wrappers
  import opened OrderedMap
  import opened PhpValue

  const RecordIdKey: string := "recordId"
  const ModificationIdKey: string := "modificationId"
  const RelatedRecordsKey: string := "related"
  const DefaultMetaKey: string := "__FileMaker__"

  /** One entry of relatedRecordsInfo: the portal's table occurrence and the
      model class of its rows. */
  datatype RelationInfo = RelationInfo(table: string, cls: string)

  /** The properties a model class may declare. None stands for a property
      the class does not declare at all. */
  datatype ModelConfig = ModelConfig(
    layoutName: string,
    keyName: string,
    fileMakerMetaKey: Option<string>,
    repetitionFields: Option<seq<string>>,
    containerFields: Option<seq<string>>,
    relatedRecordsInfo: OMap<string, RelationInfo>)

  /** A hydrated related model, as bound to its parent by a relation. */
  datatype Child = Child(attributes: OMap<Key, Value>, relatedTable: string)

  /** What setRelation stores: the whole collection, or its first element. */
  datatype Bound = Many(children: seq<Child>) | One(first: Option<Child>)

  // ---------------------------------------------------------------------
  // Declarations.

  /** getFileMakerMetaKey */
  function MetaKey(cfg: ModelConfig): (k: string)
    ensures cfg.fileMakerMetaKey.None? ==> k == DefaultMetaKey
    ensures cfg.fileMakerMetaKey.Some? ==> k == cfg.fileMakerMetaKey.value
  {
    cfg.fileMakerMetaKey.GetOr(DefaultMetaKey)
  }

  /** getRepetitionFields */
  function RepetitionFields(cfg: ModelConfig): (fs: seq<string>)
    ensures cfg.repetitionFields.None? ==> fs == []
    ensures cfg.repetitionFields.Some? ==> fs == cfg.repetitionFields.value
  {
    cfg.repetitionFields.GetOr([])
  }

  /** isRepetitionField: membership in the declared list, false without one. */
  predicate IsRepetitionField(cfg: ModelConfig, key: string) {
    cfg.repetitionFields.Some? && key in cfg.repetitionFields.value
  }

  /** getContainerFields */
  function ContainerFields(cfg: ModelConfig): (fs: seq<string>)
    ensures cfg.containerFields.None? ==> fs == []
    ensures cfg.containerFields.Some? ==> fs == cfg.containerFields.value
  {
    cfg.containerFields.GetOr([])
  }

  /** isContainerField: membership in the declared list, false without one. */
  predicate IsContainerField(cfg: ModelConfig, key: string) {
    cfg.containerFields.Some? && key in cfg.containerFields.value
  }

  lemma FieldPredicatesAreMembership(cfg: ModelConfig, key: string)
    ensures IsRepetitionField(cfg, key) <==> key in RepetitionFields(cfg) && cfg.repetitionFields.Some?
    ensures IsContainerField(cfg, key) <==> key in ContainerFields(cfg) && cfg.containerFields.Some?
    ensures cfg.repetitionFields.None? ==> !IsRepetitionField(cfg, key)
    ensures cfg.containerFields.None? ==> !IsContainerField(cfg, key)
  {
  }

  /** A string PHP treats as true in a condition: anything but "" and "0". */
  predicate TruthyString(s: string) {
    s != "" && s != "0"
  }

  datatype InfoLookup = AllInfo(all: OMap<string, RelationInfo>) | OneInfo(info: Option<RelationInfo>)

  /** getRelatedRecordsInfo($relation): the whole table when no (or a falsy)
      relation name is given, otherwise that relation's entry (null when it
      is not declared). */
  function RelatedRecordsInfo(cfg: ModelConfig, relation: Option<string>): (r: InfoLookup)
    ensures relation.None? || !TruthyString(relation.value) ==> r == AllInfo(cfg.relatedRecordsInfo)
    ensures relation.Some? && TruthyString(relation.value) ==>
      r == OneInfo(Get(cfg.relatedRecordsInfo, relation.value))
  {
    if relation.Some? && TruthyString(relation.value) then OneInfo(Get(cfg.relatedRecordsInfo, relation.value))
    else AllInfo(cfg.relatedRecordsInfo)
  }

  // ---------------------------------------------------------------------
  // setAttribute, as a function of the attribute map.

  /** The value a container field receives: null for an empty value; a
      ContainerField for a URL string or for a ContainerField (rebound to
      this field); anything else is refused. */
  function ContainerValue(key: string, value: Value): (r: Result<Value>)
    ensures Empty(value) ==> r == Success(Null)
    ensures !Empty(value) && value.Str? ==> r == Success(Container(key, value.s))
    ensures !Empty(value) && value.Container? ==> r == Success(Container(key, value.url))
    ensures r.Failure? <==> !Empty(value) && !value.Str? && !value.Container?
  {
    if Empty(value) then Success(Null)
    else match value
      case Str(url) => Success(Container(key, url))
      case Container(_, url) => Success(Container(key, url))
      case _ => Failure(UnsupportedContainerValue)
  }

  function AttributeOf(attrs: OMap<string, Value>, key: string): Value {
    Get(attrs, key).GetOr(Null)
  }

  /** The repetition array setAttribute starts from: the current value when it
      is a non-empty array, otherwise []. */
  function RepetitionBase(attrs: OMap<string, Value>, key: string): (base: OMap<Key, Value>)
    ensures Empty(AttributeOf(attrs, key)) || !AttributeOf(attrs, key).Arr? ==> base == []
    ensures !Empty(AttributeOf(attrs, key)) && AttributeOf(attrs, key).Arr? ==> base == AttributeOf(attrs, key).entries
  {
    match AttributeOf(attrs, key)
    case Arr(e) => e
    case _ => []
  }

  /** The repetition array after setAttribute. */
  function RepetitionSlots(attrs: OMap<string, Value>, key: string, value: Value, repetition: Option<int>): OMap<Key, Value>
  {
    var base := RepetitionBase(attrs, key);
    if value.Arr? then Replace(base, value.entries)
    else if repetition.Some? then Put(base, IntKey(repetition.value), value)
    else base
  }

  /** The attribute map after setAttribute($key, $value, $repetition). */
  function SetAttributeSpec(cfg: ModelConfig, attrs: OMap<string, Value>, key: string, value: Value, repetition: Option<int>)
    : (r: Result<OMap<string, Value>>)
    ensures r.Failure? <==> IsContainerField(cfg, key) && ContainerValue(key, value).Failure?
    ensures r.Failure? ==> r.error == UnsupportedContainerValue
    ensures r.Success? ==> Keys(r.value) == if key in Keys(attrs) then Keys(attrs) else Keys(attrs) + [key]
    ensures r.Success? ==> forall k :: k != key ==> Get(r.value, k) == Get(attrs, k)
  {
    if IsContainerField(cfg, key) then
      match ContainerValue(key, value)
      case Success(v) => Success(Put(attrs, key, v))
      case Failure(e) => Failure(e)
    else if IsRepetitionField(cfg, key) || repetition.Some? then
      Success(Put(attrs, key, Arr(RepetitionSlots(attrs, key, value, repetition))))
    else Success(Put(attrs, key, value))
  }

  /** A container field holds the container value made from what it was given. */
  lemma ContainerStores(cfg: ModelConfig, attrs: OMap<string, Value>, key: string, value: Value, repetition: Option<int>)
    requires IsContainerField(cfg, key) && ContainerValue(key, value).Success?
    ensures SetAttributeSpec(cfg, attrs, key, value, repetition).Success?
    ensures Get(SetAttributeSpec(cfg, attrs, key, value, repetition).value, key) == Some(ContainerValue(key, value).value)
  {
  }

  /** A repetition field, or any field given an integer repetition, holds the
      repetition array built from its old value. */
  lemma RepetitionStoresSlots(cfg: ModelConfig, attrs: OMap<string, Value>, key: string, value: Value, repetition: Option<int>)
    requires !IsContainerField(cfg, key) && (IsRepetitionField(cfg, key) || repetition.Some?)
    ensures SetAttributeSpec(cfg, attrs, key, value, repetition).Success?
    ensures Get(SetAttributeSpec(cfg, attrs, key, value, repetition).value, key)
         == Some(Arr(RepetitionSlots(attrs, key, value, repetition)))
  {
  }

  /** Any other field holds exactly the value given, as Eloquent's own
      setAttribute stores it. */
  lemma PlainAssignStores(cfg: ModelConfig, attrs: OMap<string, Value>, key: string, value: Value)
    requires !IsContainerField(cfg, key) && !IsRepetitionField(cfg, key)
    ensures SetAttributeSpec(cfg, attrs, key, value, None) == Success(Put(attrs, key, value))
    ensures Get(SetAttributeSpec(cfg, attrs, key, value, None).value, key) == Some(value)
  {
  }

  /** A container field set to an empty value becomes null. */
  lemma ContainerEmptyBecomesNull(cfg: ModelConfig, attrs: OMap<string, Value>, key: string, value: Value, repetition: Option<int>)
    requires IsContainerField(cfg, key) && Empty(value)
    ensures SetAttributeSpec(cfg, attrs, key, value, repetition) == Success(Put(attrs, key, Null))
    ensures Get(SetAttributeSpec(cfg, attrs, key, value, repetition).value, key) == Some(Null)
  {
  }

  /** An array value is merged into the repetition array by array_replace:
      the keys it gives take its values and every other slot keeps its value. */
  lemma RepetitionMerge(attrs: OMap<string, Value>, key: string, value: Value, repetition: Option<int>)
    requires value.Arr? && UniqueKeys(value.entries)
    ensures forall k :: k in Keys(value.entries) ==>
      Get(RepetitionSlots(attrs, key, value, repetition), k) == Get(value.entries, k)
    ensures forall k :: k !in Keys(value.entries) ==>
      Get(RepetitionSlots(attrs, key, value, repetition), k) == Get(RepetitionBase(attrs, key), k)
  {
    var base := RepetitionBase(attrs, key);
    var slots := RepetitionSlots(attrs, key, value, repetition);
    assert slots == Replace(base, value.entries);
    ReplaceGet(base, value.entries);
  }

  /** With an integer repetition index a non-array value sets only that slot. */
  lemma RepetitionIndex(attrs: OMap<string, Value>, key: string, value: Value, rep: int)
    requires !value.Arr?
    ensures Get(RepetitionSlots(attrs, key, value, Some(rep)), IntKey(rep)) == Some(value)
    ensures forall k :: k != IntKey(rep) ==>
      Get(RepetitionSlots(attrs, key, value, Some(rep)), k) == Get(RepetitionBase(attrs, key), k)
  {
  }

  /** A non-array value without an index leaves the (possibly reset) array as it was. */
  lemma RepetitionScalarNoIndex(attrs: OMap<string, Value>, key: string, value: Value)
    requires !value.Arr?
    ensures RepetitionSlots(attrs, key, value, None) == RepetitionBase(attrs, key)
  {
  }

  // ---------------------------------------------------------------------
  // The metadata object, as functions of the attribute map.

  /** The metadata key is handled like any other attribute by setAttribute. */
  predicate PlainMetaKey(cfg: ModelConfig) {
    !IsContainerField(cfg, MetaKey(cfg)) && !IsRepetitionField(cfg, MetaKey(cfg))
  }

  /** The attribute map after getFileMakerMetaData's first step: when the
      metadata key is absent, setFileMakerMetaDataArray([]) sets it to an empty
      object through setAttribute, written out here case by case (a container
      field refuses an object; a repetition field receives an empty array). */
  function EnsureMeta(cfg: ModelConfig, attrs: OMap<string, Value>): (r: Result<OMap<string, Value>>)
    ensures MetaKey(cfg) in Keys(attrs) ==> r == Success(attrs)
    ensures r.Success? ==> MetaKey(cfg) in Keys(r.value)
    ensures r.Failure? ==> r.error == UnsupportedContainerValue
  {
    var mk := MetaKey(cfg);
    if mk in Keys(attrs) then Success(attrs)
    else if IsContainerField(cfg, mk) then Failure(UnsupportedContainerValue)
    else if IsRepetitionField(cfg, mk) then Success(Put(attrs, mk, Arr([])))
    else Success(Put(attrs, mk, Obj([])))
  }

  /** The case split above is exactly setAttribute(metaKey, new stdClass). */
  lemma EnsureMetaIsSetAttribute(cfg: ModelConfig, attrs: OMap<string, Value>)
    requires MetaKey(cfg) !in Keys(attrs)
    ensures EnsureMeta(cfg, attrs) == SetAttributeSpec(cfg, attrs, MetaKey(cfg), Obj([]), None)
  {
    var mk := MetaKey(cfg);
    if IsContainerField(cfg, mk) {
      assert ContainerValue(mk, Obj([])) == Failure(UnsupportedContainerValue);
    } else if IsRepetitionField(cfg, mk) {
      assert AttributeOf(attrs, mk) == Null;
      assert RepetitionSlots(attrs, mk, Obj([]), None) == [];
      assert SetAttributeSpec(cfg, attrs, mk, Obj([]), None) == Success(Put(attrs, mk, Arr([])));
    } else {
      assert SetAttributeSpec(cfg, attrs, mk, Obj([]), None) == Success(Put(attrs, mk, Obj([])));
    }
  }

  /** `$meta->$key`: a property of an object, null (with a notice) when the
      property or the object is missing. */
  function Prop(meta: Value, name: string): (r: Value)
    ensures meta.Obj? && StrKey(name) in Keys(meta.props) ==> r == Get(meta.props, StrKey(name)).value
    ensures !meta.Obj? || StrKey(name) !in Keys(meta.props) ==> r == Null
  {
    if meta.Obj? then Get(meta.props, StrKey(name)).GetOr(Null) else Null
  }

  /** What getFileMakerMetaData($key) returns, read from an attribute map in
      which the metadata key is present. */
  function MetaRead(cfg: ModelConfig, attrs: OMap<string, Value>, key: Option<string>): (v: Value)
    ensures key.None? ==> v == AttributeOf(attrs, MetaKey(cfg))
    ensures key.Some? ==> v == Prop(AttributeOf(attrs, MetaKey(cfg)), key.value)
  {
    var meta := AttributeOf(attrs, MetaKey(cfg));
    if key.None? then meta else Prop(meta, key.value)
  }

  /** The attribute map after `getFileMakerMetaData()->$key = $value`: the
      object is changed in place; a metadata value that is not an object is
      left alone (PHP assigns to a temporary, with a warning). */
  function SetMetaSpec(cfg: ModelConfig, attrs: OMap<string, Value>, key: string, value: Value)
    : (r: Result<OMap<string, Value>>)
    ensures r.Success? <==> EnsureMeta(cfg, attrs).Success?
  {
    match EnsureMeta(cfg, attrs)
    case Failure(e) => Failure(e)
    case Success(a) =>
      match AttributeOf(a, MetaKey(cfg))
      case Obj(p) => Success(Put(a, MetaKey(cfg), Obj(Put(p, StrKey(key), value))))
      case _ => Success(a)
  }

  /** A model whose metadata key is a plain attribute gets a fresh empty
      metadata object appended on first read; the read then returns it. */
  lemma {:induction false} EnsureMetaCreates(cfg: ModelConfig, attrs: OMap<string, Value>)
    requires PlainMetaKey(cfg) && MetaKey(cfg) !in Keys(attrs)
    ensures EnsureMeta(cfg, attrs) == Success(attrs + [(MetaKey(cfg), Obj([]))])
    ensures MetaRead(cfg, EnsureMeta(cfg, attrs).value, None) == Obj([])
  {
    PutNewKeyAppends(attrs, MetaKey(cfg), Obj([]));
  }

  /** setFileMakerMetaDataArray replaces the whole object with the given
      entries; nothing else changes. */
  lemma MetaArrayReplaces(cfg: ModelConfig, attrs: OMap<string, Value>, values: OMap<Key, Value>)
    requires PlainMetaKey(cfg)
    ensures SetAttributeSpec(cfg, attrs, MetaKey(cfg), Obj(values), None).Success?
    ensures MetaRead(cfg, SetAttributeSpec(cfg, attrs, MetaKey(cfg), Obj(values), None).value, None) == Obj(values)
    ensures forall k :: k != MetaKey(cfg) ==>
      Get(SetAttributeSpec(cfg, attrs, MetaKey(cfg), Obj(values), None).value, k) == Get(attrs, k)
  {
  }

  /** setFileMakerMetaData changes the named entry only: reading it back gives
      the value set, and every other entry is as before. */
  lemma MetaSetThenRead(cfg: ModelConfig, attrs: OMap<string, Value>, key: string, value: Value)
    requires PlainMetaKey(cfg)
    requires MetaKey(cfg) !in Keys(attrs) || AttributeOf(attrs, MetaKey(cfg)).Obj?
    ensures SetMetaSpec(cfg, attrs, key, value).Success?
    ensures MetaRead(cfg, SetMetaSpec(cfg, attrs, key, value).value, Some(key)) == value
    ensures forall other :: other != key ==>
      MetaRead(cfg, SetMetaSpec(cfg, attrs, key, value).value, Some(other))
      == MetaRead(cfg, EnsureMeta(cfg, attrs).value, Some(other))
  {
    var a := EnsureMeta(cfg, attrs).value;
    EnsureMetaPlain(cfg, attrs);
    var p := AttributeOf(a, MetaKey(cfg)).props;
    PutObjectEntry(a, MetaKey(cfg), p, key, value);
  }

  /** setFileMakerMetaData leaves every other attribute as it was. */
  lemma MetaSetKeepsAttributes(cfg: ModelConfig, attrs: OMap<string, Value>, key: string, value: Value)
    requires PlainMetaKey(cfg)
    requires MetaKey(cfg) !in Keys(attrs) || AttributeOf(attrs, MetaKey(cfg)).Obj?
    ensures SetMetaSpec(cfg, attrs, key, value).Success?
    ensures forall k :: k != MetaKey(cfg) ==> Get(SetMetaSpec(cfg, attrs, key, value).value, k) == Get(attrs, k)
  {
    var a := EnsureMeta(cfg, attrs).value;
    EnsureMetaPlain(cfg, attrs);
    var p := AttributeOf(a, MetaKey(cfg)).props;
    var a' := Put(a, MetaKey(cfg), Obj(Put(p, StrKey(key), value)));
    assert SetMetaSpec(cfg, attrs, key, value) == Success(a');
  }

  /** Making sure the metadata exists touches no other attribute. */
  lemma EnsureMetaKeepsOthers(cfg: ModelConfig, attrs: OMap<string, Value>)
    requires EnsureMeta(cfg, attrs).Success?
    ensures forall k :: k != MetaKey(cfg) ==> Get(EnsureMeta(cfg, attrs).value, k) == Get(attrs, k)
  {
  }

  /** With a plain metadata key getFileMakerMetaData always succeeds and
      leaves an object under the key, other attributes untouched. */
  lemma EnsureMetaPlain(cfg: ModelConfig, attrs: OMap<string, Value>)
    requires PlainMetaKey(cfg)
    requires MetaKey(cfg) !in Keys(attrs) || AttributeOf(attrs, MetaKey(cfg)).Obj?
    ensures EnsureMeta(cfg, attrs).Success?
    ensures AttributeOf(EnsureMeta(cfg, attrs).value, MetaKey(cfg)).Obj?
    ensures forall k :: k != MetaKey(cfg) ==> Get(EnsureMeta(cfg, attrs).value, k) == Get(attrs, k)
  {
  }

  /** Setting one property of the object stored under mk. */
  lemma PutObjectEntry(a: OMap<string, Value>, mk: string, p: OMap<Key, Value>, key: string, value: Value)
    ensures var a' := Put(a, mk, Obj(Put(p, StrKey(key), value)));
      && Prop(AttributeOf(a', mk), key) == value
      && forall other :: other != key ==> Prop(AttributeOf(a', mk), other) == Prop(Obj(p), other)
  {
    var p' := Put(p, StrKey(key), value);
    assert AttributeOf(Put(a, mk, Obj(p')), mk) == Obj(p');
    PutOtherProps(p, key, value);
  }

  lemma PutOtherProps(p: OMap<Key, Value>, key: string, value: Value)
    ensures forall other :: other != key ==> Prop(Obj(Put(p, StrKey(key), value)), other) == Prop(Obj(p), other)
  {
    forall other | other != key
      ensures Get(Put(p, StrKey(key), value), StrKey(other)) == Get(p, StrKey(other))
    {
      assert StrKey(other) != StrKey(key);
    }
  }

  // ---------------------------------------------------------------------
  // The model object.

  class Model {
    const cfg: ModelConfig
    var attributes: OMap<string, Value>
    var relatedTable: Option<string>
    var relations: map<string, Bound>

    constructor(cfg: ModelConfig)
      ensures this.cfg == cfg && attributes == [] && relatedTable == None && relations == map[]
    {
      this.cfg := cfg;
      attributes := [];
      relatedTable := None;
      relations := map[];
    }

    /** setAttribute($key, $value, $repetition) */
    method SetAttribute(key: string, value: Value, repetition: Option<int>) returns (r: Result<()>)
      modifies this`attributes
      ensures r.Failure? ==> r.error == UnsupportedContainerValue
      ensures r.Success? <==> SetAttributeSpec(cfg, old(attributes), key, value, repetition).Success?
      ensures attributes == if r.Success? then SetAttributeSpec(cfg, old(attributes), key, value, repetition).value
                            else old(attributes)
    {
      if IsContainerField(cfg, key) {
        if Empty(value) {
          attributes := Put(attributes, key, Null);
        } else if value.Str? {
          attributes := Put(attributes, key, Container(key, value.s));
        } else if value.Container? {
          attributes := Put(attributes, key, Container(key, value.url));
        } else {
          return Failure(UnsupportedContainerValue);
        }
      } else if IsRepetitionField(cfg, key) || repetition.Some? {
        var current := Get(attributes, key);
        var slots: OMap<Key, Value>;
        if current.None? || Empty(current.value) || !current.value.Arr? {
          attributes := Put(attributes, key, Arr([]));
          slots := [];
        } else {
          slots := current.value.entries;
        }
        assert slots == RepetitionBase(old(attributes), key);
        if value.Arr? {
          PutPut(old(attributes), key, Arr([]), Arr(Replace(slots, value.entries)));
          attributes := Put(attributes, key, Arr(Replace(slots, value.entries)));
        } else if repetition.Some? {
          PutPut(old(attributes), key, Arr([]), Arr(Put(slots, IntKey(repetition.value), value)));
          attributes := Put(attributes, key, Arr(Put(slots, IntKey(repetition.value), value)));
        } else if slots != [] {
          PutSame(old(attributes), key);
        }
      } else {
        attributes := Put(attributes, key, value);
      }
      return Success(());
    }

    /** getFileMakerMetaData($key) */
    method GetFileMakerMetaData(key: Option<string>) returns (r: Result<Value>)
      modifies this`attributes
      ensures r.Failure? ==> r.error == UnsupportedContainerValue
      ensures r.Success? <==> EnsureMeta(cfg, old(attributes)).Success?
      ensures attributes == if r.Success? then EnsureMeta(cfg, old(attributes)).value else old(attributes)
      ensures r.Success? ==> r.value == MetaRead(cfg, attributes, key)
    {
      if MetaKey(cfg) !in Keys(attributes) {
        EnsureMetaIsSetAttribute(cfg, attributes);
        var created := SetFileMakerMetaDataArray([]);
        if created.Failure? {
          return Failure(created.error);
        }
      }
      var meta := AttributeOf(attributes, MetaKey(cfg));
      if key.None? {
        return Success(meta);
      }
      return Success(Prop(meta, key.value));
    }

    /** setFileMakerMetaDataArray($values) */
    method SetFileMakerMetaDataArray(values: OMap<Key, Value>) returns (r: Result<()>)
      modifies this`attributes
      ensures r.Failure? ==> r.error == UnsupportedContainerValue
      ensures r.Success? <==> SetAttributeSpec(cfg, old(attributes), MetaKey(cfg), Obj(values), None).Success?
      ensures attributes == if r.Success? then SetAttributeSpec(cfg, old(attributes), MetaKey(cfg), Obj(values), None).value
                            else old(attributes)
    {
      r := SetAttribute(MetaKey(cfg), Obj(values), None);
    }

    /** setFileMakerMetaData($key, $value) */
    method SetFileMakerMetaData(key: string, value: Value) returns (r: Result<()>)
      modifies this`attributes
      ensures r.Failure? ==> r.error == UnsupportedContainerValue
      ensures r.Success? <==> SetMetaSpec(cfg, old(attributes), key, value).Success?
      ensures attributes == if r.Success? then SetMetaSpec(cfg, old(attributes), key, value).value else old(attributes)
    {
      var meta := GetFileMakerMetaData(None);
      if meta.Failure? {
        return Failure(meta.error);
      }
      if meta.value.Obj? {
        attributes := Put(attributes, MetaKey(cfg), Obj(Put(meta.value.props, StrKey(key), value)));
      }
      return Success(());
    }

    /** setRawAttributes: the attribute map replaced without setAttribute's rules. */
    method SetRawAttributes(attrs: OMap<string, Value>)
      modifies this`attributes
      ensures attributes == attrs
    {
      attributes := attrs;
    }

    /** setRelatedTable */
    method SetRelatedTable(table: string)
      modifies this`relatedTable
      ensures relatedTable == Some(table)
    {
      relatedTable := Some(table);
    }

    /** setRelation */
    method SetRelation(name: string, value: Bound)
      modifies this`relations
      ensures relations == old(relations)[name := value]
    {
      relations := relations[name := value];
    }
  }
}
