/**
 * `clean_for_json`, the control room's sanitiser: a value about to be serialised is
 * rebuilt with every non-finite number replaced by null, every other number written as a
 * float and every timestamp as its text, and with dictionaries and lists kept in shape.
 */
module Json {
  import opened Wrappers

  /** The numbers that reach the sanitiser: integers (bool is one in Python), floats, NaN and the infinities. */
  datatype Number = Integer(i: int) | Float(x: real) | NaN | Infinity(negative: bool)

  /** A value before or after sanitising; `Stamp` is a timestamp with its ISO text. */
  datatype Value =
    | Null
    | Bool(b: bool)
    | Num(n: Number)
    | Str(s: string)
    | Stamp(iso: string)
    | List(items: seq<Value>)
    | Object(members: seq<Member>)

  /** One entry of a dictionary, in insertion order. */
  datatype Member = Member(key: string, value: Value)

  /** What `json.dumps` may receive from the core: no NaN, no infinity, only floats, no timestamps, no bools. */
  predicate Sanitized(v: Value) {
    match v
    case Null => true
    case Bool(_) => false
    case Num(n) => n.Float?
    case Str(_) => true
    case Stamp(_) => false
    case List(items) => forall i :: 0 <= i < |items| ==> Sanitized(items[i])
    case Object(members) => forall i :: 0 <= i < |members| ==> Sanitized(members[i].value)
  }

  /** The keys of a dictionary, in order. */
  function Keys(members: seq<Member>): (r: seq<string>)
    ensures |r| == |members| && forall i :: 0 <= i < |members| ==> r[i] == members[i].key
  {
    seq(|members|, i requires 0 <= i < |members| => members[i].key)
  }

  /** `float(n)` for a finite number, null for NaN and the infinities. */
  function CleanNumber(n: Number): (r: Value)
    ensures Sanitized(r)
    ensures r.Null? <==> n.NaN? || n.Infinity?
    ensures n.Float? ==> r == Num(n)
    ensures n.Integer? ==> r == Num(Float(n.i as real))
  {
    match n
    case Integer(i) => Num(Float(i as real))
    case Float(x) => Num(Float(x))
    case NaN => Null
    case Infinity(_) => Null
  }

  /**
   * `clean_for_json`: dictionaries and lists are rebuilt entry by entry, numbers and bools
   * go through `CleanNumber`, timestamps become their ISO text and anything else (null,
   * strings) is returned unchanged. The result is sanitised and has the input's shape:
   * a dictionary stays a dictionary with the same keys in the same order, a list a list of
   * the same length.
   */
  function Clean(v: Value): (r: Value)
    ensures Sanitized(r)
    ensures v.Object? <==> r.Object?
    ensures v.Object? ==> Keys(r.members) == Keys(v.members)
    ensures v.List? <==> r.List?
    ensures v.List? ==> |r.items| == |v.items|
    ensures v.Str? || v.Null? ==> r == v
    ensures v.Num? ==> r == CleanNumber(v.n)
    decreases v
  {
    match v
    case Object(members) => Object(CleanMembers(members))
    case List(items) => List(CleanItems(items))
    case Stamp(iso) => Str(iso)
    case Num(n) => CleanNumber(n)
    case Bool(b) => Num(Float(if b then 1.0 else 0.0))
    case Null => Null
    case Str(_) => v
  }

  /** The dictionary comprehension of `clean_for_json`: same keys, cleaned values. */
  function CleanMembers(members: seq<Member>): (r: seq<Member>)
    ensures |r| == |members|
    ensures forall i :: 0 <= i < |r| ==> r[i].key == members[i].key && Sanitized(r[i].value)
    ensures forall i :: 0 <= i < |r| ==> r[i].value == Clean(members[i].value)
    decreases members
  {
    if members == [] then []
    else [Member(members[0].key, Clean(members[0].value))] + CleanMembers(members[1..])
  }

  /** The list comprehension of `clean_for_json`: each item cleaned, in order. */
  function CleanItems(items: seq<Value>): (r: seq<Value>)
    ensures |r| == |items|
    ensures forall i :: 0 <= i < |r| ==> Sanitized(r[i]) && r[i] == Clean(items[i])
    decreases items
  {
    if items == [] then []
    else [Clean(items[0])] + CleanItems(items[1..])
  }

  /** A value that is already sanitised comes back unchanged. */
  lemma {:induction false} CleanKeepsSanitized(v: Value)
    requires Sanitized(v)
    ensures Clean(v) == v
    decreases v
  {
    match v
    case Object(members) =>
      forall i | 0 <= i < |members| ensures Clean(members[i].value) == members[i].value {
        CleanKeepsSanitized(members[i].value);
      }
      assert CleanMembers(members) == members;
    case List(items) =>
      forall i | 0 <= i < |items| ensures Clean(items[i]) == items[i] {
        CleanKeepsSanitized(items[i]);
      }
      assert CleanItems(items) == items;
    case Num(n) =>
    case Null =>
    case Str(_) =>
  }

  /** Cleaning twice is cleaning once. */
  lemma CleanIdempotent(v: Value)
    ensures Clean(Clean(v)) == Clean(v)
  {
    CleanKeepsSanitized(Clean(v));
  }

  /** A number value as the data frame holds it: an unknown figure is NaN. */
  function FrameNumber(x: Option<real>): Value {
    match x
    case Some(r) => Num(Float(r))
    case None => Num(NaN)
  }

  /** An unknown figure leaves the core as null and a known one as the same float. */
  lemma CleanFrameNumber(x: Option<real>)
    ensures Clean(FrameNumber(x)) == (if x.Some? then Num(Float(x.value)) else Null)
  {
  }
}
