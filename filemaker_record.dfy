/** What the FileMaker PHP API hands to the adapter: raw records, whose
    fields are lists of strings (one entry per repetition), their related
    sets (portal rows), and command results.  RecordImplementation::getAllFields
    is the one piece of this layer that belongs to the adapter. */
module FileMakerRecord {
  import opened Wrappers
  import opened OrderedMap
  import opened PhpValue

  /** A record as the vendor API holds it. */
  datatype RawRecord = RawRecord(
    fields: OMap<string, seq<string>>,
    recordId: string,
    modificationId: string,
    relatedSets: map<string, RelatedSet>)

  /** What getRelatedSet returns: the portal's records, or an error object
      that carries a code and a message. */
  datatype RelatedSet = SetRecords(records: seq<RawRecord>) | SetError(code: int, message: string)

  /** The result of executing a find, edit, add or delete command. */
  datatype CommandResult =
    | Records(records: seq<RawRecord>, fetchCount: int)
    | CommandError(code: int, message: string)

  /** The message the vendor API gives for a table the record has no related
      set for: `Related set "<table>" not present.` */
  function NotPresentMessage(table: string): (m: string)
    ensures m != []
  {
    "Related set \"" + table + "\" not present."
  }

  /** $record->getRelatedSet($table). A table without an entry is reported
      with the not-present message and code 0, standing for "no code". */
  function RelatedSetOf(r: RawRecord, table: string): (s: RelatedSet)
    ensures table in r.relatedSets ==> s == r.relatedSets[table]
    ensures table !in r.relatedSets ==> s == SetError(0, NotPresentMessage(table))
  {
    if table in r.relatedSets then r.relatedSets[table] else SetError(0, NotPresentMessage(table))
  }

  function Strs(l: seq<string>): (vs: seq<Value>)
    ensures |vs| == |l|
    ensures forall i :: 0 <= i < |l| ==> vs[i] == Str(l[i])
  {
    if l == [] then [] else [Str(l[0])] + Strs(l[1..])
  }

  /** The callback of getAllFields: `count($v) > 1 ? $v : reset($v)`. */
  function Flatten(l: seq<string>): (v: Value)
  {
    if |l| > 1 then ListOf(Strs(l))
    else if |l| == 1 then Str(l[0])
    else Bool(false)
  }

  /** getAllFields: every raw field list flattened, under the same name and
      in the same order. */
  function AllFields(r: RawRecord): (row: OMap<string, Value>)
    ensures Keys(row) == Keys(r.fields)
    ensures forall i :: 0 <= i < |row| ==> row[i].1 == Flatten(r.fields[i].1)
  {
    FlattenFields(r.fields)
  }

  function FlattenFields(fields: OMap<string, seq<string>>): (row: OMap<string, Value>)
    ensures |row| == |fields|
    ensures forall i :: 0 <= i < |row| ==> row[i] == (fields[i].0, Flatten(fields[i].1))
  {
    if fields == [] then [] else [(fields[0].0, Flatten(fields[0].1))] + FlattenFields(fields[1..])
  }

  /** A field with a single entry becomes that entry, even an empty string. */
  lemma FlattenSingle(l: seq<string>)
    requires |l| == 1
    ensures Flatten(l) == Str(l[0])
  {
  }

  /** A field with two or more entries stays a list of the same entries, in
      the same order and with positions 0, 1, 2, ... */
  lemma FlattenRepetitions(l: seq<string>)
    requires |l| >= 2
    ensures Flatten(l).Arr? && |Flatten(l).entries| == |l|
    ensures forall i :: 0 <= i < |l| ==> Flatten(l).entries[i] == (IntKey(i), Str(l[i]))
  {
  }

  /** A field without entries becomes false, what reset() gives for []. */
  lemma FlattenNone()
    ensures Flatten([]) == Bool(false)
  {
  }

  /** Whether a field is collapsed depends on its number of entries only:
      two lists of the same length are both kept or both collapsed, whatever
      their entries (empty strings included). */
  lemma FlattenByCount(l1: seq<string>, l2: seq<string>)
    requires |l1| == |l2|
    ensures Flatten(l1).Arr? <==> Flatten(l2).Arr?
    ensures Flatten(l1).Arr? <==> |l1| > 1
    ensures Flatten(l1).Str? <==> |l1| == 1
  {
  }
}
