/** The PHP values the adapter moves between FileMaker records and models:
    scalars, ordered arrays, stdClass objects (the metadata objects) and
    container-field objects, with the few PHP built-ins the adapter applies
    to them (empty, count, casts to array and to string). */
module PhpValue {
  import opened Wrappers
  import opened OrderedMap

  /** An array key: PHP keeps integer and string keys apart. */
  datatype Key = IntKey(i: int) | StrKey(s: string)

  datatype Value =
    | Null
    | Bool(b: bool)
    | Int(n: int)
    | Str(s: string)
    | Arr(entries: OMap<Key, Value>)
    | Obj(props: OMap<Key, Value>)
      // a stdClass object; its properties in order
    | Container(field: string, url: string)
      // a ContainerField object bound to a field, for a resource on the server

  /** PHP's empty(): null, false, 0, "", "0" and the empty array. Objects are
      never empty. */
  predicate Empty(v: Value) {
    match v
    case Null => true
    case Bool(b) => !b
    case Int(n) => n == 0
    case Str(s) => s == "" || s == "0"
    case Arr(e) => e == []
    case Obj(_) => false
    case Container(_, _) => false
  }

  /** count() under PHP 7: the number of entries of an array, 0 for null,
      1 for anything else. */
  function Count(v: Value): (n: nat)
    ensures v.Arr? ==> n == |v.entries|
    ensures !v.Arr? ==> n == (if v.Null? then 0 else 1)
  {
    match v
    case Arr(e) => |e|
    case Null => 0
    case _ => 1
  }

  /** An array whose keys are 0, 1, 2, ... holding vs in order. */
  function Indexed(vs: seq<Value>, start: int): (m: OMap<Key, Value>)
    ensures |m| == |vs|
    ensures forall i :: 0 <= i < |vs| ==> m[i] == (IntKey(start + i), vs[i])
    decreases |vs|
  {
    if vs == [] then [] else [(IntKey(start), vs[0])] + Indexed(vs[1..], start + 1)
  }

  function ListOf(vs: seq<Value>): (v: Value)
    ensures v.Arr? && Values(v.entries) == vs
  {
    Arr(Indexed(vs, 0))
  }

  /** A row of named fields as a PHP array with string keys. */
  function StrKeyed(row: OMap<string, Value>): (m: OMap<Key, Value>)
    ensures |m| == |row|
    ensures forall i :: 0 <= i < |row| ==> m[i] == (StrKey(row[i].0), row[i].1)
  {
    if row == [] then [] else [(StrKey(row[0].0), row[0].1)] + StrKeyed(row[1..])
  }

  /** (array)$v */
  function ToArray(v: Value): (m: OMap<Key, Value>)
    ensures v.Arr? ==> m == v.entries
    ensures v.Obj? ==> m == v.props
    ensures v.Null? ==> m == []
  {
    match v
    case Arr(e) => e
    case Obj(p) => p
    case Null => []
    case _ => [(IntKey(0), v)]
  }

  /** The decimal digits of a natural number. */
  function NatToString(n: nat): (s: string)
    ensures |s| >= 1
    ensures forall i :: 0 <= i < |s| ==> '0' <= s[i] <= '9'
    decreases n
  {
    if n < 10 then [(n + '0' as int) as char]
    else NatToString(n / 10) + [((n % 10) + '0' as int) as char]
  }

  function IntToString(i: int): (s: string)
    ensures s != []
  {
    if i < 0 then "-" + NatToString(-i) else NatToString(i)
  }

  /** A value converted to a string where PHP would do so implicitly (string
      concatenation, str_replace, strtolower); None for objects, which have
      no such conversion. Arrays give "Array" (with a notice). */
  function ToStr(v: Value): (r: Option<string>)
    ensures v.Str? ==> r == Some(v.s)
    ensures (v.Obj? || v.Container?) <==> r.None?
  {
    match v
    case Null => Some("")
    case Bool(b) => Some(if b then "1" else "")
    case Int(n) => Some(IntToString(n))
    case Str(s) => Some(s)
    case Arr(_) => Some("Array")
    case Obj(_) => None
    case Container(_, _) => None
  }

  /** A key as the string str_replace sees. */
  function KeyString(k: Key): (s: string)
    ensures k.StrKey? ==> s == k.s
  {
    match k
    case StrKey(s) => s
    case IntKey(i) => IntToString(i)
  }

  /** An object: stdClass and ContainerField do not implement ArrayAccess,
      so an offset read on one throws. */
  predicate IsObject(v: Value) {
    v.Obj? || v.Container?
  }

  /** The offset a key selects in a string: an integer key as it is, a string
      key by its leading sign and decimal digits, 0 when it has none (PHP
      warns about an illegal offset then). */
  function StringOffset(k: Key): int {
    match k
    case IntKey(i) => i
    case StrKey(s) =>
      if s != [] && s[0] == '-' then -(LeadingDigits(s[1..], 0) as int)
      else if s != [] && s[0] == '+' then LeadingDigits(s[1..], 0)
      else LeadingDigits(s, 0)
  }

  /** The number the decimal digits at the start of s make, appended to acc. */
  function LeadingDigits(s: string, acc: nat): nat
    decreases |s|
  {
    if s != [] && '0' <= s[0] <= '9' then LeadingDigits(s[1..], acc * 10 + (s[0] as int - '0' as int))
    else acc
  }

  /** A string offset read: the character at off, a negative off counting
      from the end (PHP 7.1 and later); "" (with a notice) outside the string. */
  function CharAt(s: string, off: int): (c: string)
    ensures |c| <= 1
  {
    if 0 <= off < |s| then [s[off]]
    else if -|s| <= off < 0 then [s[|s| + off]]
    else ""
  }

  /** `$v[$k]` read under PHP 7: the entry of an array, or null (with a
      notice) for a missing key; a one-character string (or "") for a string;
      null for null, booleans and integers; an object throws. */
  function Lookup(v: Value, k: Key): (r: Result<Value>)
    ensures r.Failure? <==> IsObject(v)
    ensures r.Failure? ==> r.error == ObjectAsArray
    ensures v.Arr? && k in Keys(v.entries) ==> r == Success(Get(v.entries, k).value)
    ensures v.Arr? && k !in Keys(v.entries) ==> r == Success(Null)
    ensures v.Null? || v.Bool? || v.Int? ==> r == Success(Null)
    ensures v.Str? ==> r.Success? && r.value.Str? && |r.value.s| <= 1
  {
    match v
    case Arr(e) => Success(Get(e, k).GetOr(Null))
    case Str(s) => Success(Str(CharAt(s, StringOffset(k))))
    case Obj(_) => Failure(ObjectAsArray)
    case Container(_, _) => Failure(ObjectAsArray)
    case _ => Success(Null)
  }

  /** A string read at an integer offset inside it gives that character;
      counted from the end when the offset is negative; "" past either end. */
  lemma LookupStringOffset(s: string, i: int)
    ensures 0 <= i < |s| ==> Lookup(Str(s), IntKey(i)) == Success(Str([s[i]]))
    ensures -|s| <= i < 0 ==> Lookup(Str(s), IntKey(i)) == Success(Str([s[|s| + i]]))
    ensures i >= |s| || i < -|s| ==> Lookup(Str(s), IntKey(i)) == Success(Str(""))
  {
  }

  /** A string key reads the string at the number its leading digits make. */
  lemma LookupStringKey(s: string, key: string, digits: string, rest: string)
    requires key == digits + rest && digits != []
    requires forall j :: 0 <= j < |digits| ==> '0' <= digits[j] <= '9'
    requires rest == [] || !('0' <= rest[0] <= '9')
    ensures Lookup(Str(s), StrKey(key)) == Lookup(Str(s), IntKey(LeadingDigits(digits, 0)))
  {
    LeadingDigitsSplit(digits, rest, 0);
    assert key[0] == digits[0];
  }

  lemma {:induction false} LeadingDigitsSplit(digits: string, rest: string, acc: nat)
    requires forall j :: 0 <= j < |digits| ==> '0' <= digits[j] <= '9'
    requires rest == [] || !('0' <= rest[0] <= '9')
    ensures LeadingDigits(digits + rest, acc) == LeadingDigits(digits, acc)
    decreases |digits|
  {
    if digits == [] {
      assert digits + rest == rest;
    } else {
      assert (digits + rest)[1..] == digits[1..] + rest;
      LeadingDigitsSplit(digits[1..], rest, acc * 10 + (digits[0] as int - '0' as int));
    }
  }
}
