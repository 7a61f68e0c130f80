/** FMLaravel's QueryBuilder: where clauses collected from the caller are
    translated into a FileMaker find command (a basic find with one list of
    criteria, or a compound find with one numbered request per clause), sort
    rules and a range are added, and the vendor's result is filtered and
    extracted.  Writes split container-field values from the others, issue
    edit, add and delete commands, and reconcile the model's attributes and
    metadata with the record the server returns. */
module Queries {
  import opened Wrappers
  import opened OrderedMap
  import opened PhpValue
  import opened FileMakerRecord
  import opened Models
  import opened Helpers
  import opened Extraction

  // ---------------------------------------------------------------------
  // Where clauses.

  /** The operators the builder accepts, besides those of the grammar. */
  const Operators: seq<string> := ["=", "==", "<", ">", "<=", ">=", "<>", "!", "~", "\"\"", "*\"\"", "like"]

  /** A stored where clause: a basic comparison, a nested group, or the
      null test that whereNull / whereNotNull store. */
  datatype Where =
    | Basic(column: string, operator: string, value: Value, boolean: string)
    | Nested(wheres: seq<Where>, boolean: string)
    | NullTest(column: string, boolean: string, negated: bool)

  /** A call of where(): with two arguments, or with operator, value and
      boolean (three arguments give boolean "and"). */
  datatype WhereCall =
    | TwoArgs(column: string, value: Value)
    | FullArgs(column: string, operator: Value, value: Value, boolean: string)

  /** strtolower($operator) is one of the builder's or the grammar's operators. */
  predicate KnownOperator(op: Value, grammarOperators: seq<string>) {
    match ToStr(op)
    case None => false
    case Some(s) => Strings.Lower(s) in Operators || Strings.Lower(s) in grammarOperators
  }

  /** A boolean compared on a JSON-path column (`a->b`): where() turns the
      value into `new Expression('true' | 'false')`. QueryBuilder.php imports
      no Expression class, so the name resolves to FMLaravel\Database's own,
      which is not declared, and `new` throws. */
  predicate JsonBoolean(column: string, value: Value) {
    Strings.StrPos(column, "->").Some? && value.Bool?
  }

  const ExpressionClass: string := "FMLaravel\\Database\\Expression"

  /** The clause where() stores. */
  function WhereClause(call: WhereCall, grammarOperators: seq<string>): (r: Result<Where>)
    ensures r.Success? ==> !r.value.Nested?
    ensures r.Failure? ==> r.error == ClassNotFound(ExpressionClass) && Strings.StrPos(call.column, "->").Some?
  {
    var column := call.column;
    var boolean := if call.TwoArgs? then "and" else call.boolean;
    var operator :=
      if call.TwoArgs? then "="
      else if KnownOperator(call.operator, grammarOperators) then ToStr(call.operator).value
      else "==";
    var value :=
      if call.TwoArgs? then call.value
      else if KnownOperator(call.operator, grammarOperators) then call.value
      else call.operator;
    if value.Null? then Success(NullTest(column, boolean, operator != "=="))
    else if JsonBoolean(column, value) then Failure(ClassNotFound(ExpressionClass))
    else Success(Basic(column, operator, value, boolean))
  }

  /** Two-argument where compares with `=`; a null value then stores a
      not-null test, since the test is negated for every operator but `==`. */
  lemma WhereTwoArgs(column: string, value: Value, grammarOperators: seq<string>)
    ensures !value.Null? && !JsonBoolean(column, value) ==>
      WhereClause(TwoArgs(column, value), grammarOperators) == Success(Basic(column, "=", value, "and"))
    ensures value.Null? ==> WhereClause(TwoArgs(column, value), grammarOperators) == Success(NullTest(column, "and", true))
    ensures JsonBoolean(column, value) ==> WhereClause(TwoArgs(column, value), grammarOperators) == Failure(ClassNotFound(ExpressionClass))
  {
  }

  /** An operator that is not known is taken as the value, compared with `==`. */
  lemma WhereUnknownOperator(column: string, op: Value, value: Value, boolean: string, grammarOperators: seq<string>)
    requires !KnownOperator(op, grammarOperators)
    ensures !op.Null? && !JsonBoolean(column, op) ==>
      WhereClause(FullArgs(column, op, value, boolean), grammarOperators) == Success(Basic(column, "==", op, boolean))
    ensures op.Null? ==> WhereClause(FullArgs(column, op, value, boolean), grammarOperators) == Success(NullTest(column, boolean, false))
    ensures JsonBoolean(column, op) ==>
      WhereClause(FullArgs(column, op, value, boolean), grammarOperators) == Failure(ClassNotFound(ExpressionClass))
  {
  }

  /** A known operator is kept as written, upper case included. */
  lemma WhereKnownOperator(column: string, op: string, value: Value, boolean: string, grammarOperators: seq<string>)
    requires Strings.Lower(op) in Operators && !value.Null?
    ensures !JsonBoolean(column, value) ==>
      WhereClause(FullArgs(column, Str(op), value, boolean), grammarOperators) == Success(Basic(column, op, value, boolean))
    ensures JsonBoolean(column, value) ==>
      WhereClause(FullArgs(column, Str(op), value, boolean), grammarOperators) == Failure(ClassNotFound(ExpressionClass))
  {
  }

  /** containsOr: some top-level clause has boolean "or". */
  function Booleans(ws: seq<Where>): (bs: seq<string>)
    ensures |bs| == |ws| && forall i :: 0 <= i < |ws| ==> bs[i] == ws[i].boolean
  {
    if ws == [] then [] else [ws[0].boolean] + Booleans(ws[1..])
  }

  predicate ContainsOr(ws: seq<Where>) {
    ws != [] && "or" in Booleans(ws)
  }

  /** containsOr looks at the top-level booleans only. */
  lemma ContainsOrIsTopLevel(ws: seq<Where>)
    ensures ContainsOr(ws) <==> exists i :: 0 <= i < |ws| && ws[i].boolean == "or"
  {
    if ContainsOr(ws) {
      var i :| 0 <= i < |Booleans(ws)| && Booleans(ws)[i] == "or";
      assert ws[i].boolean == "or";
    }
  }

  /** An "or" inside a nested group does not make the query compound. */
  lemma NestedOrIsNotSeen(inner: seq<Where>)
    ensures !ContainsOr([Nested(inner, "and")])
  {
    assert Booleans([Nested(inner, "and")]) == ["and"];
  }

  // ---------------------------------------------------------------------
  // Find criteria.

  /** A criterion of a find request: the field and the value to match. */
  datatype Criterion = Criterion(field: string, value: Value)

  /** The criterion of one clause that is not a group: a `like` value is
      handed over raw; any other operator is prefixed to the escaped value.
      A null test has neither operator nor value, both of which PHP reads
      as null, giving the empty string. */
  function LeafCriterion(w: Where): (r: Result<Criterion>)
    requires !w.Nested?
    ensures r.Failure? <==> w.Basic? && w.operator != "like" && ToStr(w.value).None?
    ensures r.Success? ==> r.value.field == w.column
  {
    match w
    case NullTest(column, _, _) => Success(Criterion(column, Str("" + Escape(""))))
    case Basic(column, operator, value, _) =>
      if operator == "like" then Success(Criterion(column, value))
      else
        match ToStr(value)
        case None => Failure(NotAString)
        case Some(s) => Success(Criterion(column, Str(operator + Escape(s))))
  }

  /** Escaping applies to the value and never to the operator: a value free
      of FileMaker's special characters follows the operator unchanged, and
      one with them is lengthened. */
  lemma LeafCriterionEscapes(column: string, operator: string, s: string, boolean: string)
    requires operator != "like"
    ensures var c := LeafCriterion(Basic(column, operator, Str(s), boolean));
      && c.Success? && c.value.value.Str?
      && c.value.value.s[..|operator|] == operator
      && (!HasSpecial(s) <==> c.value.value.s == operator + s)
      && (HasSpecial(s) ==> |c.value.value.s| > |operator| + |s|)
  {
    EscapeUnchangedIff(s);
    var t := operator + Escape(s);
    assert t[..|operator|] == operator;
    if t == operator + s {
      assert t[|operator|..] == Escape(s) && t[|operator|..] == s;
    }
  }

  /** A `like` clause passes its value through untouched, whatever it holds. */
  lemma LikeIsRaw(column: string, value: Value, boolean: string)
    ensures LeafCriterion(Basic(column, "like", value, boolean)) == Success(Criterion(column, value))
  {
  }

  /** A null test, negated or not, gives the empty criterion. */
  lemma NullTestCriterion(column: string, boolean: string, negated: bool)
    ensures LeafCriterion(NullTest(column, boolean, negated)) == Success(Criterion(column, Str("")))
  {
    EscapeEmpty();
    assert "" + Escape("") == "";
  }

  /** The first failure of two, or both lists of criteria in order. */
  function Join(x: Result<seq<Criterion>>, y: Result<seq<Criterion>>): (r: Result<seq<Criterion>>)
    ensures r.Success? <==> x.Success? && y.Success?
    ensures r.Success? ==> r.value == x.value + y.value
  {
    if x.Failure? then x else if y.Failure? then y else Success(x.value + y.value)
  }

  lemma JoinAssociative(x: Result<seq<Criterion>>, y: Result<seq<Criterion>>, z: Result<seq<Criterion>>)
    ensures Join(Join(x, y), z) == Join(x, Join(y, z))
  {
    if x.Success? && y.Success? && z.Success? {
      assert (x.value + y.value) + z.value == x.value + (y.value + z.value);
    }
  }

  lemma JoinEmpty(x: Result<seq<Criterion>>)
    ensures Join(x, Success([])) == x && Join(Success([]), x) == x
  {
    if x.Success? {
      assert x.value + [] == x.value && [] + x.value == x.value;
    }
  }

  /** The criteria of a list of clauses without groups, one per clause. */
  function LeafCriteria(ls: seq<Where>): (r: Result<seq<Criterion>>)
    requires forall i :: 0 <= i < |ls| ==> !ls[i].Nested?
    ensures r.Success? <==> forall i :: 0 <= i < |ls| ==> LeafCriterion(ls[i]).Success?
    ensures r.Success? ==> |r.value| == |ls| && forall i :: 0 <= i < |ls| ==> r.value[i] == LeafCriterion(ls[i]).value
  {
    if ls == [] then Success([])
    else
      var h := LeafCriterion(ls[0]);
      var t := LeafCriteria(ls[1..]);
      assert forall i :: 1 <= i < |ls| ==> ls[i] == ls[1..][i - 1];
      if h.Failure? then Failure(h.error) else Join(Success([h.value]), t)
  }

  /** The clauses that are not groups, groups opened in place, in order. */
  function Leaves(ws: seq<Where>): (ls: seq<Where>)
    ensures forall i :: 0 <= i < |ls| ==> !ls[i].Nested?
    decreases ws
  {
    if ws == [] then []
    else (if ws[0].Nested? then Leaves(ws[0].wheres) else [ws[0]]) + Leaves(ws[1..])
  }

  /** The criteria parseWheres adds to one request, group by group. */
  function Criteria(ws: seq<Where>): (r: Result<seq<Criterion>>)
    decreases ws
  {
    if ws == [] then Success([])
    else Join(if ws[0].Nested? then Criteria(ws[0].wheres) else LeafCriteria([ws[0]]), Criteria(ws[1..]))
  }

  lemma {:induction false} LeafCriteriaConcat(a: seq<Where>, b: seq<Where>)
    requires forall i :: 0 <= i < |a| ==> !a[i].Nested?
    requires forall i :: 0 <= i < |b| ==> !b[i].Nested?
    ensures LeafCriteria(a + b) == Join(LeafCriteria(a), LeafCriteria(b))
    decreases |a|
  {
    if a == [] {
      assert a + b == b;
      JoinEmpty(LeafCriteria(b));
    } else {
      assert (a + b)[0] == a[0] && (a + b)[1..] == a[1..] + b;
      LeafCriteriaConcat(a[1..], b);
      var h := LeafCriterion(a[0]);
      if h.Success? {
        JoinAssociative(Success([h.value]), LeafCriteria(a[1..]), LeafCriteria(b));
      }
    }
  }

  /** Groups are flattened into the enclosing request: the criteria of a list
      of clauses are the criteria of its leaves, one per leaf and in order,
      whatever the booleans of the groups and of the clauses. */
  lemma {:induction false} CriteriaAreLeafCriteria(ws: seq<Where>)
    ensures Criteria(ws) == LeafCriteria(Leaves(ws))
    decreases ws
  {
    if ws != [] {
      var head := if ws[0].Nested? then Leaves(ws[0].wheres) else [ws[0]];
      if ws[0].Nested? {
        CriteriaAreLeafCriteria(ws[0].wheres);
      }
      CriteriaAreLeafCriteria(ws[1..]);
      LeafCriteriaConcat(head, Leaves(ws[1..]));
    }
  }

  lemma {:induction false} CriteriaConcat(a: seq<Where>, b: seq<Where>)
    ensures Criteria(a + b) == Join(Criteria(a), Criteria(b))
    decreases |a|
  {
    if a == [] {
      assert a + b == b;
      JoinEmpty(Criteria(b));
    } else {
      assert (a + b)[0] == a[0] && (a + b)[1..] == a[1..] + b;
      CriteriaConcat(a[1..], b);
      var head := if a[0].Nested? then Criteria(a[0].wheres) else LeafCriteria([a[0]]);
      JoinAssociative(head, Criteria(a[1..]), Criteria(b));
    }
  }

  /** A numbered request of a compound find. */
  datatype FindRequest = FindRequest(precedence: int, criteria: seq<Criterion>)

  /** The requests compound mode adds: one per top-level clause, numbered on
      from start. */
  function Requests(ws: seq<Where>, start: int): (r: Result<seq<FindRequest>>)
    ensures r.Success? <==> forall i :: 0 <= i < |ws| ==> Criteria([ws[i]]).Success?
    ensures r.Success? ==> |r.value| == |ws| && forall i :: 0 <= i < |ws| ==>
      r.value[i] == FindRequest(start + i, Criteria([ws[i]]).value)
    decreases |ws|
  {
    if ws == [] then Success([])
    else
      var h := Criteria([ws[0]]);
      var t := Requests(ws[1..], start + 1);
      assert forall i :: 1 <= i < |ws| ==> ws[i] == ws[1..][i - 1];
      if h.Failure? then Failure(h.error)
      else if t.Failure? then Failure(t.error)
      else Success([FindRequest(start, h.value)] + t.value)
  }

  /** The requests of clauses that all translate are exactly those numbered
      from start, one per clause. */
  lemma RequestsOfEvery(ws: seq<Where>, start: int, acc: seq<FindRequest>)
    requires forall j :: 0 <= j < |ws| ==> Criteria([ws[j]]).Success?
    requires |acc| == |ws|
    requires forall j :: 0 <= j < |ws| ==> acc[j] == FindRequest(start + j, Criteria([ws[j]]).value)
    ensures Requests(ws, start) == Success(acc)
  {
    assert Requests(ws, start).value == acc;
  }

  /** How many requests compound mode adds before a clause fails: the
      counter goes up once for each of them. */
  function Added(ws: seq<Where>): (n: nat)
    ensures n <= |ws|
    ensures forall i :: 0 <= i < n ==> Criteria([ws[i]]).Success?
    ensures n < |ws| ==> Criteria([ws[n]]).Failure?
    decreases |ws|
  {
    if ws == [] || Criteria([ws[0]]).Failure? then 0
    else
      assert forall i :: 1 <= i < |ws| ==> ws[i] == ws[1..][i - 1];
      1 + Added(ws[1..])
  }

  /** A successful compound translation adds a request for every clause. */
  lemma AddedAll(ws: seq<Where>, start: int)
    ensures Requests(ws, start).Success? <==> Added(ws) == |ws|
  {
  }

  /** The failure compound mode reports is that of the first failing clause. */
  lemma {:induction false} RequestsFailure(ws: seq<Where>, start: int)
    requires Added(ws) < |ws|
    ensures Requests(ws, start) == Failure(Criteria([ws[Added(ws)]]).error)
    decreases |ws|
  {
    if Criteria([ws[0]]).Success? {
      RequestsFailure(ws[1..], start + 1);
      assert ws[1..][Added(ws[1..])] == ws[Added(ws)];
    }
  }

  // ---------------------------------------------------------------------
  // Sorting and the find command.

  datatype SortOrder = Ascend | Descend

  /** addSortRule($field, $precedence, $order) */
  datatype SortRule = SortRule(field: string, precedence: int, order: SortOrder)

  /** The argument of sortBy: one field, or a list of fields. */
  datatype SortFields = OneField(name: string) | FieldList(names: seq<string>)

  function OrderOf(order: string): (o: SortOrder)
    ensures o == Descend <==> order == "desc"
  {
    if order == "desc" then Descend else Ascend
  }

  /** The sort rules of addSortRules: numbered 1..n in insertion order. */
  function SortRulesOf(sorts: OMap<string, string>): (rules: seq<SortRule>)
  {
    seq(|sorts|, j requires 0 <= j < |sorts| => SortRule(sorts[j].0, j + 1, OrderOf(sorts[j].1)))
  }

  datatype FindMode = BasicFind(criteria: seq<Criterion>) | CompoundFind(requests: seq<FindRequest>)

  /** A find command as get() builds it before executing it. */
  datatype FindCommand = FindCommand(layout: string, mode: FindMode, sortRules: seq<SortRule>, skip: Value, limit: Value)

  /** A compound find when some top-level clause is an "or", a basic one otherwise. */
  function FindModeOf(ws: seq<Where>, start: int): (r: Result<FindMode>)
    ensures r.Success? && ContainsOr(ws) ==>
      Requests(ws, start).Success? && r == Success(CompoundFind(Requests(ws, start).value))
    ensures r.Success? && !ContainsOr(ws) ==>
      Criteria(ws).Success? && r == Success(BasicFind(Criteria(ws).value))
    ensures r.Failure? <==> if ContainsOr(ws) then Requests(ws, start).Failure? else Criteria(ws).Failure?
  {
    if ContainsOr(ws) then
      match Requests(ws, start)
      case Failure(e) => Failure(e)
      case Success(rs) => Success(CompoundFind(rs))
    else
      match Criteria(ws)
      case Failure(e) => Failure(e)
      case Success(cs) => Success(BasicFind(cs))
  }

  /** The check after execute: every error but 401 ("no records match") is
      raised, and the rest goes to the extractor. */
  function FindOutcome(st: ExtractorState, reg: Registry, result: CommandResult): (r: Result<seq<Row>>)
  {
    if result.CommandError? && result.code != 401 then Failure(StoreError(result.code, result.message))
    else ProcessResult(st, reg, result)
  }

  /** No records found is an empty result, not an error. */
  lemma NoMatchIsEmpty(st: ExtractorState, reg: Registry, message: string)
    ensures FindOutcome(st, reg, CommandError(401, message)) == Success([])
  {
  }

  /** Any other error is raised with its code and message. */
  lemma FindErrorRaised(st: ExtractorState, reg: Registry, code: int, message: string)
    requires code != 401
    ensures FindOutcome(st, reg, CommandError(code, message)) == Failure(StoreError(code, message))
  {
  }

  /** Records found are extracted as processArray does. */
  lemma FindRecordsExtracted(st: ExtractorState, reg: Registry, records: seq<RawRecord>, fetchCount: int)
    requires fetchCount != 0
    ensures FindOutcome(st, reg, Records(records, fetchCount)) == ExtractRows(st, reg, records)
  {
  }

  // ---------------------------------------------------------------------
  // Writes.

  /** The write commands update, insertGetId and delete issue. */
  datatype WriteCommand =
    | EditCommand(layout: string, recordId: Value, values: OMap<string, Value>)
    | AddCommand(layout: string, values: OMap<string, Value>)
    | DeleteCommand(layout: string, recordId: Value)

  /** What a write leaves behind: its result, the model's attribute map, the
      command it executed, and the container values it handed to
      updateContainerFields. */
  datatype WriteOutcome<T> = WriteOutcome(
    result: Result<T>,
    attributes: OMap<string, Value>,
    command: Option<WriteCommand>,
    containerUpdate: Option<OMap<string, Value>>)

  /** array_filter keeping the ContainerField values. */
  function ContainerValues(values: OMap<string, Value>): (r: OMap<string, Value>)
    ensures forall e :: e in r <==> e in values && e.1.Container?
    ensures |r| <= |values|
  {
    if values == [] then []
    else (if values[0].1.Container? then [values[0]] else []) + ContainerValues(values[1..])
  }

  /** array_diff_key($a, $b): the entries of a whose key b does not have. */
  function DiffKey(a: OMap<string, Value>, b: OMap<string, Value>): (r: OMap<string, Value>)
    ensures forall e :: e in r <==> e in a && e.0 !in Keys(b)
  {
    if a == [] then []
    else (if a[0].0 in Keys(b) then [] else [a[0]]) + DiffKey(a[1..], b)
  }

  function PlainValues(values: OMap<string, Value>): OMap<string, Value> {
    DiffKey(values, ContainerValues(values))
  }

  /** The split of a write: the container values and the other values share
      no key, and together they are the input. */
  lemma SplitPartitions(values: OMap<string, Value>)
    requires UniqueKeys(values)
    ensures forall k :: !(k in Keys(ContainerValues(values)) && k in Keys(PlainValues(values)))
    ensures forall e :: e in values <==> e in ContainerValues(values) || e in PlainValues(values)
    ensures forall e :: e in PlainValues(values) ==> !e.1.Container?
  {
    var cf := ContainerValues(values);
    var plain := PlainValues(values);
    forall k | k in Keys(plain)
      ensures k !in Keys(cf)
    {
      var i :| 0 <= i < |plain| && plain[i].0 == k;
      assert plain[i] in plain;
    }
    forall e | e in values
      ensures e in cf || e in plain
    {
      if !e.1.Container? && e.0 in Keys(cf) {
        var i :| 0 <= i < |cf| && cf[i].0 == e.0;
        assert cf[i] in values && cf[i].1.Container?;
        UniqueKeyEntries(values, e, cf[i]);
      }
    }
  }

  lemma {:induction false} UniqueKeyEntries(m: OMap<string, Value>, e1: (string, Value), e2: (string, Value))
    requires UniqueKeys(m) && e1 in m && e2 in m && e1.0 == e2.0
    ensures e1 == e2
  {
    var i :| 0 <= i < |m| && m[i] == e1;
    var j :| 0 <= j < |m| && m[j] == e2;
    GetAt(m, i);
    GetAt(m, j);
  }

  function ContainerUpdate(cf: OMap<string, Value>): Option<OMap<string, Value>> {
    if cf != [] then Some(cf) else None
  }

  /** The metadata after an edit: the previous metadata cast to an array,
      with the modification id of the returned record. */
  function EditedMeta(meta: Value, rec: RawRecord): (m: OMap<Key, Value>)
    ensures Get(m, StrKey(ModificationIdKey)) == Some(Str(rec.modificationId))
    ensures forall k :: k != StrKey(ModificationIdKey) ==> Get(m, k) == Get(ToArray(meta), k)
  {
    Put(ToArray(meta), StrKey(ModificationIdKey), Str(rec.modificationId))
  }

  /** The attribute map after a successful edit: the returned record's
      fields, with the metadata read before (from a1) given the new
      modification id. */
  function ReconcileEdit(cfg: ModelConfig, a1: OMap<string, Value>, rec: RawRecord,
                         fieldsOf: RawRecord -> OMap<string, Value>): Result<OMap<string, Value>>
  {
    SetAttributeSpec(cfg, fieldsOf(rec), MetaKey(cfg), Obj(EditedMeta(MetaRead(cfg, a1, None), rec)), None)
  }

  /** The edit branch of update, once the metadata is there (in a1). */
  function EditSpec(cfg: ModelConfig, a1: OMap<string, Value>, plain: OMap<string, Value>, cf: OMap<string, Value>,
                    execute: WriteCommand -> CommandResult,
                    fieldsOf: RawRecord -> OMap<string, Value>): WriteOutcome<bool>
  {
    var cmd := EditCommand(cfg.layoutName, MetaRead(cfg, a1, Some(RecordIdKey)), plain);
    match execute(cmd)
    case CommandError(code, message) => WriteOutcome(Failure(StoreError(code, message)), a1, Some(cmd), None)
    case Records(recs, _) =>
      if recs == [] then WriteOutcome(Failure(NoRecordReturned), a1, Some(cmd), None)
      else
        match ReconcileEdit(cfg, a1, recs[0], fieldsOf)
        case Failure(e) => WriteOutcome(Failure(e), fieldsOf(recs[0]), Some(cmd), None)
        case Success(a3) => WriteOutcome(Success(true), a3, Some(cmd), ContainerUpdate(cf))
  }

  /** update($values) */
  function UpdateSpec(cfg: ModelConfig, attrs: OMap<string, Value>, values: OMap<string, Value>,
                      execute: WriteCommand -> CommandResult,
                      fieldsOf: RawRecord -> OMap<string, Value>): WriteOutcome<bool>
  {
    var cf := ContainerValues(values);
    var plain := DiffKey(values, cf);
    if plain == [] then WriteOutcome(Success(true), attrs, None, ContainerUpdate(cf))
    else
      match EnsureMeta(cfg, attrs)
      case Failure(e) => WriteOutcome(Failure(e), attrs, None, None)
      case Success(a1) => EditSpec(cfg, a1, plain, cf, execute, fieldsOf)
  }

  /** An update of container fields only issues no edit command and leaves
      the attributes alone; the container values go to updateContainerFields. */
  lemma UpdateContainersOnly(cfg: ModelConfig, attrs: OMap<string, Value>, values: OMap<string, Value>,
                             execute: WriteCommand -> CommandResult, fieldsOf: RawRecord -> OMap<string, Value>)
    requires values != [] && forall i :: 0 <= i < |values| ==> values[i].1.Container?
    ensures UpdateSpec(cfg, attrs, values, execute, fieldsOf) == WriteOutcome(Success(true), attrs, None, Some(values))
  {
    var cf := ContainerValues(values);
    assert cf == values by {
      ContainerValuesAll(values);
    }
    DiffKeyCovered(values, cf);
  }

  lemma {:induction false} DiffKeyCovered(a: OMap<string, Value>, b: OMap<string, Value>)
    requires forall i :: 0 <= i < |a| ==> a[i].0 in Keys(b)
    ensures DiffKey(a, b) == []
  {
    if a != [] {
      DiffKeyCovered(a[1..], b);
    }
  }

  lemma {:induction false} ContainerValuesAll(values: OMap<string, Value>)
    requires forall i :: 0 <= i < |values| ==> values[i].1.Container?
    ensures ContainerValues(values) == values
  {
    if values != [] {
      ContainerValuesAll(values[1..]);
      assert [values[0]] + values[1..] == values;
    }
  }

  /** After an edit the model holds the returned record's fields, and its
      metadata keeps every entry it had before except the modification id,
      which is the returned record's. */
  lemma UpdateReconcilesMeta(cfg: ModelConfig, attrs: OMap<string, Value>, values: OMap<string, Value>,
                             execute: WriteCommand -> CommandResult, fieldsOf: RawRecord -> OMap<string, Value>)
    requires PlainMetaKey(cfg)
    requires UpdateSpec(cfg, attrs, values, execute, fieldsOf).command.Some?
    requires UpdateSpec(cfg, attrs, values, execute, fieldsOf).result.Success?
    ensures var out := UpdateSpec(cfg, attrs, values, execute, fieldsOf);
      && EnsureMeta(cfg, attrs).Success?
      && execute(out.command.value).Records?
      && execute(out.command.value).records != []
      && var rec := execute(out.command.value).records[0];
      var before := ToArray(MetaRead(cfg, EnsureMeta(cfg, attrs).value, None));
      var after := MetaRead(cfg, out.attributes, None);
      && after.Obj?
      && Get(after.props, StrKey(ModificationIdKey)) == Some(Str(rec.modificationId))
      && (forall k :: k != StrKey(ModificationIdKey) ==> Get(after.props, k) == Get(before, k))
      && (forall f :: f != MetaKey(cfg) ==> Get(out.attributes, f) == Get(fieldsOf(rec), f))
  {
    var out := UpdateSpec(cfg, attrs, values, execute, fieldsOf);
    var cf := ContainerValues(values);
    var plain := DiffKey(values, cf);
    var a1 := EnsureMeta(cfg, attrs).value;
    assert out == EditSpec(cfg, a1, plain, cf, execute, fieldsOf);
    var cmd := EditCommand(cfg.layoutName, MetaRead(cfg, a1, Some(RecordIdKey)), plain);
    var rec := execute(cmd).records[0];
    assert out.attributes == ReconcileEdit(cfg, a1, rec, fieldsOf).value;
    MetaArrayReplaces(cfg, fieldsOf(rec), EditedMeta(MetaRead(cfg, a1, None), rec));
  }

  /** An edit the server refuses is raised with its code and message. */
  lemma UpdateErrorRaised(cfg: ModelConfig, attrs: OMap<string, Value>, values: OMap<string, Value>,
                          execute: WriteCommand -> CommandResult, fieldsOf: RawRecord -> OMap<string, Value>)
    requires UpdateSpec(cfg, attrs, values, execute, fieldsOf).command.Some?
    requires execute(UpdateSpec(cfg, attrs, values, execute, fieldsOf).command.value).CommandError?
    ensures var out := UpdateSpec(cfg, attrs, values, execute, fieldsOf);
      var res := execute(out.command.value);
      out.result == Failure(StoreError(res.code, res.message)) && out.containerUpdate.None?
  {
  }

  /** The metadata of a new record: exactly its record id and modification id. */
  function InsertedMeta(rec: RawRecord): (m: OMap<Key, Value>)
    ensures Keys(m) == [StrKey(RecordIdKey), StrKey(ModificationIdKey)]
  {
    [(StrKey(RecordIdKey), Str(rec.recordId)), (StrKey(ModificationIdKey), Str(rec.modificationId))]
  }

  /** insertGetId($values): the result is the returned record's key field. */
  function InsertSpec(cfg: ModelConfig, attrs: OMap<string, Value>, values: OMap<string, Value>,
                      execute: WriteCommand -> CommandResult,
                      fieldsOf: RawRecord -> OMap<string, Value>,
                      getField: (RawRecord, string) -> Value): WriteOutcome<Value>
  {
    var cf := ContainerValues(values);
    var plain := DiffKey(values, cf);
    var cmd := AddCommand(cfg.layoutName, plain);
    match execute(cmd)
    case CommandError(code, message) => WriteOutcome(Failure(StoreError(code, message)), attrs, Some(cmd), None)
    case Records(recs, _) =>
      if recs == [] then WriteOutcome(Failure(NoRecordReturned), attrs, Some(cmd), None)
      else
        var a2 := fieldsOf(recs[0]);
        match SetAttributeSpec(cfg, a2, MetaKey(cfg), Obj(InsertedMeta(recs[0])), None)
        case Failure(e) => WriteOutcome(Failure(e), a2, Some(cmd), None)
        case Success(a3) => WriteOutcome(Success(getField(recs[0], cfg.keyName)), a3, Some(cmd), ContainerUpdate(cf))
  }

  /** An insert always issues an add command with the values that are not
      container values, even when there are none. */
  lemma InsertAlwaysAdds(cfg: ModelConfig, attrs: OMap<string, Value>, values: OMap<string, Value>,
                         execute: WriteCommand -> CommandResult, fieldsOf: RawRecord -> OMap<string, Value>,
                         getField: (RawRecord, string) -> Value)
    ensures InsertSpec(cfg, attrs, values, execute, fieldsOf, getField).command
      == Some(AddCommand(cfg.layoutName, PlainValues(values)))
  {
  }

  /** After an add the metadata holds exactly the record id and the
      modification id of the returned record, and the other attributes are
      the record's fields. */
  lemma InsertSetsMeta(cfg: ModelConfig, attrs: OMap<string, Value>, values: OMap<string, Value>,
                       execute: WriteCommand -> CommandResult, fieldsOf: RawRecord -> OMap<string, Value>,
                       getField: (RawRecord, string) -> Value)
    requires PlainMetaKey(cfg)
    requires InsertSpec(cfg, attrs, values, execute, fieldsOf, getField).result.Success?
    ensures var out := InsertSpec(cfg, attrs, values, execute, fieldsOf, getField);
      var rec := execute(AddCommand(cfg.layoutName, PlainValues(values))).records[0];
      && MetaRead(cfg, out.attributes, None) == Obj(InsertedMeta(rec))
      && Keys(MetaRead(cfg, out.attributes, None).props) == [StrKey(RecordIdKey), StrKey(ModificationIdKey)]
      && (forall f :: f != MetaKey(cfg) ==> Get(out.attributes, f) == Get(fieldsOf(rec), f))
      && out.result.value == getField(rec, cfg.keyName)
  {
  }

  /** insert: whether the new record's key is non-empty in PHP's sense. */
  function InsertResult(r: Result<Value>): (b: Result<bool>)
    ensures r.Failure? ==> b == Failure(r.error)
    ensures r.Success? ==> b.Success? && (b.value <==> !Empty(r.value))
  {
    match r
    case Failure(e) => Failure(e)
    case Success(v) => Success(!Empty(v))
  }

  /** A new record whose key reads "0" is reported as not inserted. */
  lemma InsertZeroKeyIsFalse()
    ensures InsertResult(Success(Str("0"))) == Success(false)
  {
  }

  /** delete($id) */
  function DeleteSpec(cfg: ModelConfig, attrs: OMap<string, Value>, id: Value,
                      execute: WriteCommand -> CommandResult): WriteOutcome<bool>
  {
    if !id.Null? then WriteOutcome(Failure(UnsupportedDelete), attrs, None, None)
    else
      match EnsureMeta(cfg, attrs)
      case Failure(e) => WriteOutcome(Failure(e), attrs, None, None)
      case Success(a1) =>
        var cmd := DeleteCommand(cfg.layoutName, MetaRead(cfg, a1, Some(RecordIdKey)));
        match execute(cmd)
        case CommandError(code, message) => WriteOutcome(Failure(StoreError(code, message)), a1, Some(cmd), None)
        case Records(_, _) => WriteOutcome(Success(true), a1, Some(cmd), None)
  }

  /** A delete with an id is refused before any command is built. */
  lemma DeleteWithIdRefused(cfg: ModelConfig, attrs: OMap<string, Value>, id: Value,
                            execute: WriteCommand -> CommandResult)
    requires !id.Null?
    ensures DeleteSpec(cfg, attrs, id, execute) == WriteOutcome(Failure(UnsupportedDelete), attrs, None, None)
  {
  }

  /** A delete without an id deletes the record the metadata names. */
  lemma DeleteUsesRecordId(cfg: ModelConfig, attrs: OMap<string, Value>, execute: WriteCommand -> CommandResult)
    requires PlainMetaKey(cfg) && AttributeOf(attrs, MetaKey(cfg)).Obj? && MetaKey(cfg) in Keys(attrs)
    ensures DeleteSpec(cfg, attrs, Null, execute).command
      == Some(DeleteCommand(cfg.layoutName, Prop(AttributeOf(attrs, MetaKey(cfg)), RecordIdKey)))
    ensures DeleteSpec(cfg, attrs, Null, execute).attributes == attrs
  {
  }

  // ---------------------------------------------------------------------
  // The builder object.

  class QueryBuilder {
    const registry: Registry
    const grammarOperators: seq<string>
    var model: Model
    var extractor: RecordExtractor
    var wheres: seq<Where>
    var skip: Value
    var limit: Value
    var sorts: OMap<string, string>
    var compoundWhere: int

    /** A builder for a model, as newBaseQueryBuilder and setModel make it. */
    constructor(registry: Registry, grammarOperators: seq<string>, model: Model)
      ensures this.registry == registry && this.grammarOperators == grammarOperators && this.model == model
      ensures fresh(extractor) && extractor.registry == registry && extractor.State() == StateFor(model.cfg)
      ensures wheres == [] && skip == Null && limit == Null && sorts == [] && compoundWhere == 1
    {
      this.registry := registry;
      this.grammarOperators := grammarOperators;
      this.model := model;
      var x := RecordExtractor.ForModelOf(registry, Instance(model.cfg));
      assert x.Success?;
      extractor := x.value;
      wheres := [];
      skip := Null;
      limit := Null;
      sorts := [];
      compoundWhere := 1;
    }

    /** setModel */
    method SetModel(m: Model)
      modifies this`model, this`extractor
      ensures model == m
      ensures fresh(extractor) && extractor.registry == registry && extractor.State() == StateFor(m.cfg)
    {
      model := m;
      var x := RecordExtractor.ForModelOf(registry, Instance(m.cfg));
      assert x.Success?;
      extractor := x.value;
    }

    /** setEagerLoad */
    method SetEagerLoad(names: seq<string>)
      modifies extractor`eagerLoad
      ensures extractor.eagerLoad == names
    {
      extractor.SetEagerLoad(names);
    }

    /** where(...): the clause is stored, unless building it throws. */
    method Where(call: WhereCall) returns (r: Result<()>)
      modifies this`wheres
      ensures WhereClause(call, grammarOperators).Success? ==>
        r == Success(()) && wheres == old(wheres) + [WhereClause(call, grammarOperators).value]
      ensures WhereClause(call, grammarOperators).Failure? ==>
        r == Failure(WhereClause(call, grammarOperators).error) && wheres == old(wheres)
    {
      var w := WhereClause(call, grammarOperators);
      if w.Failure? {
        return Failure(w.error);
      }
      wheres := wheres + [w.value];
      return Success(());
    }

    /** skip($skip) */
    method Skip(n: Value)
      modifies this`skip
      ensures skip == n
    {
      skip := n;
    }

    /** limit($limit) */
    method Limit(n: Value)
      modifies this`limit
      ensures limit == n
    {
      limit := n;
    }

    /** sortBy($fields, $order): a single field takes the order given, a
        list of fields is sorted ascending. */
    method SortBy(fields: SortFields, order: string)
      modifies this`sorts
      ensures fields.OneField? ==> OrderedMap.Get(sorts, fields.name) == Some(order)
      ensures fields.FieldList? ==> forall f :: f in fields.names ==> OrderedMap.Get(sorts, f) == Some("asc")
      ensures forall f :: (if fields.OneField? then f != fields.name else f !in fields.names) ==>
        OrderedMap.Get(sorts, f) == OrderedMap.Get(old(sorts), f)
      ensures Keys(old(sorts)) <= Keys(sorts)
      ensures UniqueKeys(old(sorts)) ==> UniqueKeys(sorts)
    {
      if fields.OneField? {
        sorts := Put(sorts, fields.name, order);
      } else {
        var names := fields.names;
        for i := 0 to |names|
          invariant forall f :: f in names[..i] ==> OrderedMap.Get(sorts, f) == Some("asc")
          invariant forall f :: f !in names[..i] ==> OrderedMap.Get(sorts, f) == OrderedMap.Get(old(sorts), f)
          invariant Keys(old(sorts)) <= Keys(sorts)
          invariant UniqueKeys(old(sorts)) ==> UniqueKeys(sorts)
        {
          assert names[..i + 1] == names[..i] + [names[i]];
          sorts := Put(sorts, names[i], "asc");
        }
        assert names[..|names|] == names;
      }
    }

    /** addSortRules: one rule per sort entry, numbered from 1, descending
        exactly for the order "desc". */
    method AddSortRules() returns (rules: seq<SortRule>)
      ensures |rules| == |sorts|
      ensures forall j :: 0 <= j < |sorts| ==> rules[j].field == sorts[j].0 && rules[j].precedence == j + 1
      ensures forall j :: 0 <= j < |sorts| ==> (rules[j].order == Descend <==> sorts[j].1 == "desc")
    {
      rules := [];
      var i := 1;
      while i <= |sorts|
        invariant 1 <= i <= |sorts| + 1
        invariant |rules| == i - 1
        invariant forall j :: 0 <= j < i - 1 ==> rules[j] == SortRule(sorts[j].0, j + 1, OrderOf(sorts[j].1))
      {
        var field := sorts[i - 1].0;
        var order := if sorts[i - 1].1 == "desc" then Descend else Ascend;
        rules := rules + [SortRule(field, i, order)];
        i := i + 1;
      }
    }

    /** parseWheres in basic mode: the criteria of every clause, groups
        opened in place. */
    static method AddCriteria(ws: seq<Where>) returns (r: Result<seq<Criterion>>)
      ensures r == Criteria(ws)
      decreases ws
    {
      var acc: seq<Criterion> := [];
      for i := 0 to |ws|
        invariant Criteria(ws[..i]) == Success(acc)
      {
        var w := ws[i];
        var added: Result<seq<Criterion>>;
        if w.Nested? {
          added := AddCriteria(w.wheres);
        } else {
          var c := LeafCriterion(w);
          added := if c.Failure? then Failure(c.error) else Success([c.value]);
        }
        assert added == Criteria([w]) by {
          assert [w][1..] == [];
          if w.Nested? {
            JoinEmpty(Criteria(w.wheres));
          } else {
            JoinEmpty(LeafCriteria([w]));
            var c := LeafCriterion(w);
            if c.Success? {
              assert LeafCriteria([w]) == Join(Success([c.value]), Success([]));
              JoinEmpty(Success([c.value]));
            }
          }
        }
        assert ws[..i + 1] == ws[..i] + [w];
        CriteriaConcat(ws[..i], [w]);
        if added.Failure? {
          assert ws == ws[..i + 1] + ws[i + 1..];
          CriteriaConcat(ws[..i + 1], ws[i + 1..]);
          return Failure(added.error);
        }
        acc := acc + added.value;
      }
      assert ws[..|ws|] == ws;
      return Success(acc);
    }

    /** parseWheres in compound mode: one request per top-level clause,
        numbered from compoundWhere, which goes up once per request and is
        never reset. */
    method AddRequests(ws: seq<Where>) returns (r: Result<seq<FindRequest>>)
      modifies this`compoundWhere
      ensures r == Requests(ws, old(compoundWhere))
      ensures compoundWhere == old(compoundWhere) + Added(ws)
    {
      var acc: seq<FindRequest> := [];
      var i := 0;
      while i < |ws|
        invariant 0 <= i <= |ws|
        invariant compoundWhere == old(compoundWhere) + i
        invariant forall j :: 0 <= j < i ==> Criteria([ws[j]]).Success?
        invariant |acc| == i
        invariant forall j :: 0 <= j < i ==> acc[j] == FindRequest(old(compoundWhere) + j, Criteria([ws[j]]).value)
      {
        var request := AddCriteria([ws[i]]);
        if request.Failure? {
          AddedIsFirstFailure(ws, i);
          RequestsFailure(ws, old(compoundWhere));
          return Failure(request.error);
        }
        acc := acc + [FindRequest(compoundWhere, request.value)];
        compoundWhere := compoundWhere + 1;
        i := i + 1;
      }
      AddedIsFirstFailure(ws, |ws|);
      RequestsOfEvery(ws, old(compoundWhere), acc);
      return Success(acc);
    }

    /** get(): build the find, execute it, filter the error, extract. */
    method Get(execute: FindCommand -> CommandResult) returns (r: Result<seq<Row>>)
      modifies this`compoundWhere
      ensures compoundWhere == old(compoundWhere) + (if ContainsOr(wheres) then Added(wheres) else 0)
      ensures match FindModeOf(wheres, old(compoundWhere))
        case Failure(e) => r == Failure(e)
        case Success(mode) =>
          r == FindOutcome(extractor.State(), extractor.registry,
                           execute(FindCommand(model.cfg.layoutName, mode, SortRulesOf(sorts), skip, limit)))
    {
      var mode: FindMode;
      if ContainsOr(wheres) {
        var requests := AddRequests(wheres);
        if requests.Failure? {
          return Failure(requests.error);
        }
        mode := CompoundFind(requests.value);
      } else {
        var criteria := AddCriteria(wheres);
        if criteria.Failure? {
          return Failure(criteria.error);
        }
        mode := BasicFind(criteria.value);
      }
      var rules := AddSortRules();
      assert rules == SortRulesOf(sorts);
      var result := execute(FindCommand(model.cfg.layoutName, mode, rules, skip, limit));
      if result.CommandError? && result.code != 401 {
        return Failure(StoreError(result.code, result.message));
      }
      r := ProcessResult(extractor.State(), extractor.registry, result);
    }

    /** update($values); updateContainerFields is not part of this model, so
        the container values it would receive are returned. */
    method Update(values: OMap<string, Value>, execute: WriteCommand -> CommandResult,
                  fieldsOf: RawRecord -> OMap<string, Value>)
      returns (r: Result<bool>, command: Option<WriteCommand>, containerUpdate: Option<OMap<string, Value>>)
      modifies model`attributes
      ensures WriteOutcome(r, model.attributes, command, containerUpdate)
        == UpdateSpec(model.cfg, old(model.attributes), values, execute, fieldsOf)
    {
      command := None;
      containerUpdate := None;
      var cf := ContainerValues(values);
      var plain := DiffKey(values, cf);
      if plain != [] {
        var id := model.GetFileMakerMetaData(Some(RecordIdKey));
        if id.Failure? {
          return Failure(id.error), command, containerUpdate;
        }
        var cmd := EditCommand(model.cfg.layoutName, id.value, plain);
        command := Some(cmd);
        var result := execute(cmd);
        if result.CommandError? {
          return Failure(StoreError(result.code, result.message)), command, containerUpdate;
        }
        if result.records == [] {
          return Failure(NoRecordReturned), command, containerUpdate;
        }
        var rec := result.records[0];
        var meta := model.GetFileMakerMetaData(None);
        assert meta.Success?;
        model.SetRawAttributes(fieldsOf(rec));
        var saved := model.SetFileMakerMetaDataArray(EditedMeta(meta.value, rec));
        if saved.Failure? {
          return Failure(saved.error), command, containerUpdate;
        }
      }
      containerUpdate := ContainerUpdate(cf);
      return Success(true), command, containerUpdate;
    }

    /** insertGetId($values) */
    method InsertGetId(values: OMap<string, Value>, execute: WriteCommand -> CommandResult,
                       fieldsOf: RawRecord -> OMap<string, Value>, getField: (RawRecord, string) -> Value)
      returns (r: Result<Value>, command: Option<WriteCommand>, containerUpdate: Option<OMap<string, Value>>)
      modifies model`attributes
      ensures WriteOutcome(r, model.attributes, command, containerUpdate)
        == InsertSpec(model.cfg, old(model.attributes), values, execute, fieldsOf, getField)
    {
      containerUpdate := None;
      var cf := ContainerValues(values);
      var plain := DiffKey(values, cf);
      var cmd := AddCommand(model.cfg.layoutName, plain);
      command := Some(cmd);
      var result := execute(cmd);
      if result.CommandError? {
        return Failure(StoreError(result.code, result.message)), command, containerUpdate;
      }
      if result.records == [] {
        return Failure(NoRecordReturned), command, containerUpdate;
      }
      var rec := result.records[0];
      model.SetRawAttributes(fieldsOf(rec));
      var saved := model.SetFileMakerMetaDataArray(InsertedMeta(rec));
      if saved.Failure? {
        return Failure(saved.error), command, containerUpdate;
      }
      containerUpdate := ContainerUpdate(cf);
      return Success(getField(rec, model.cfg.keyName)), command, containerUpdate;
    }

    /** insert($values) */
    method Insert(values: OMap<string, Value>, execute: WriteCommand -> CommandResult,
                  fieldsOf: RawRecord -> OMap<string, Value>, getField: (RawRecord, string) -> Value)
      returns (r: Result<bool>, command: Option<WriteCommand>, containerUpdate: Option<OMap<string, Value>>)
      modifies model`attributes
      ensures var out := InsertSpec(model.cfg, old(model.attributes), values, execute, fieldsOf, getField);
        && r == InsertResult(out.result)
        && model.attributes == out.attributes && command == out.command && containerUpdate == out.containerUpdate
    {
      var key;
      key, command, containerUpdate := InsertGetId(values, execute, fieldsOf, getField);
      r := InsertResult(key);
    }

    /** delete($id) */
    method Delete(id: Value, execute: WriteCommand -> CommandResult)
      returns (r: Result<bool>, command: Option<WriteCommand>)
      modifies model`attributes
      ensures WriteOutcome(r, model.attributes, command, None) == DeleteSpec(model.cfg, old(model.attributes), id, execute)
    {
      command := None;
      if !id.Null? {
        return Failure(UnsupportedDelete), command;
      }
      var recordId := model.GetFileMakerMetaData(Some(RecordIdKey));
      if recordId.Failure? {
        return Failure(recordId.error), command;
      }
      var cmd := DeleteCommand(model.cfg.layoutName, recordId.value);
      command := Some(cmd);
      var result := execute(cmd);
      if result.CommandError? {
        return Failure(StoreError(result.code, result.message)), command;
      }
      return Success(true), command;
    }
  }

  /** The counter value compound mode stops at is the first failing clause. */
  lemma {:induction false} AddedIsFirstFailure(ws: seq<Where>, i: nat)
    requires i <= |ws|
    requires forall j :: 0 <= j < i ==> Criteria([ws[j]]).Success?
    requires i < |ws| ==> Criteria([ws[i]]).Failure?
    ensures Added(ws) == i
    decreases i
  {
    if i > 0 {
      assert forall j :: 0 <= j < i - 1 ==> ws[1..][j] == ws[j + 1];
      AddedIsFirstFailure(ws[1..], i - 1);
    }
  }
}
