/**
 * The fragment of Prisma's `where` objects that the list handlers build, and what it means for a
 * stored row. A row is a record of field values; a to-one relation is a nested record and a
 * to-many relation a list of records.
 */
module WhereFilter {
  import opened Wrappers
  import JsText

  datatype Value =
    | IntV(i: int)
    | StrV(s: string)
    | NullV
    | NaNV                              // `NaN`, which no stored value equals
    | RecordV(fields: map<string, Value>)
    | ListV(items: seq<Value>)

  /** One `field: condition` entry of a nested where object. */
  datatype Clause = Clause(field: string, cond: Cond)

  datatype Cond =
    | Equals(v: Value)                  // `field: v`
    | Substring(text: string)           // `{ contains: text }`
    | Gt(n: int)                        // `{ gt: n }`
    | Lte(n: int)                       // `{ lte: n }`
    | InRange(gte: int, lt: int)        // `{ gte, lt }`
    | NotNull                           // `{ not: null }`
    | Related(clauses: seq<Clause>)     // to-one relation: `{ f: c, ... }`
    | SomeOf(clauses: seq<Clause>)      // to-many relation: `{ some: { f: c, ... } }`
    | AllOf(clauses: seq<Clause>)       // `AND: [ { f: c }, ... ]`
    | AnyOf(clauses: seq<Clause>)       // `OR: [ { f: c }, ... ]`

  type Where = map<string, Cond>
  type Row = map<string, Value>

  /** Milliseconds from one midnight to the next (days of 23 or 25 hours are not modelled). */
  const MsPerDay: int := 86_400_000

  /** The entry `key: c` of a where object holds of a row. */
  predicate Holds(key: string, c: Cond, row: Row)
    decreases c, 1
  {
    match c
    case AllOf(cs) => forall i :: 0 <= i < |cs| ==> Holds(cs[i].field, cs[i].cond, row)
    case AnyOf(cs) => exists i :: 0 <= i < |cs| && Holds(cs[i].field, cs[i].cond, row)
    case _ => key in row && OnValue(c, row[key])
  }

  /** A field condition holds of the field's value. */
  predicate OnValue(c: Cond, v: Value)
    decreases c, 0
  {
    match c
    case Equals(x) => x != NaNV && v == x
    case Substring(t) => v.StrV? && JsText.Contains(v.s, t)
    case Gt(n) => v.IntV? && v.i > n
    case Lte(n) => v.IntV? && v.i <= n
    case InRange(a, b) => v.IntV? && a <= v.i < b
    case NotNull => v != NullV
    case Related(cs) =>
      v.RecordV? && AllHold(cs, v.fields)
    case SomeOf(cs) =>
      v.ListV? &&
      exists j :: 0 <= j < |v.items| && v.items[j].RecordV? && AllHold(cs, v.items[j].fields)
    case AllOf(_) => false
    case AnyOf(_) => false
  }

  /** Every clause of a nested where object holds of a record. */
  predicate AllHold(cs: seq<Clause>, row: Row)
    decreases cs
  {
    forall i :: 0 <= i < |cs| ==> Holds(cs[i].field, cs[i].cond, row)
  }

  /** A row is selected by a where object when every entry holds of it. */
  predicate Matches(w: Where, row: Row) {
    forall k :: k in w ==> Holds(k, w[k], row)
  }

  /** The `created_at` condition for a calendar day starting at `start`: the half-open day. */
  function DayRange(start: int): (c: Cond)
    ensures forall t :: OnValue(c, IntV(t)) <==> start <= t < start + MsPerDay
  {
    InRange(start, start + MsPerDay)
  }

  /** `Number` or `NaN` as a filter value. */
  function NumberValue(n: Option<int>): Value {
    if n.None? then NaNV else IntV(n.value)
  }

  /** `if (present) where.key = c`: one step of building a where object. */
  function Put(w: Where, present: bool, key: string, c: Cond): (r: Where)
    ensures present ==> r == w[key := c]
    ensures !present ==> r == w
  {
    if present then w[key := c] else w
  }

  /** Adding an entry under a fresh key adds exactly its condition to what a row must satisfy. */
  lemma PutMatches(w: Where, present: bool, key: string, c: Cond, row: Row)
    requires key !in w
    ensures Matches(Put(w, present, key, c), row) <==> Matches(w, row) && (present ==> Holds(key, c, row))
  {
    var r := Put(w, present, key, c);
    if present && Matches(r, row) {
      assert Holds(key, r[key], row);
      forall k | k in w ensures Holds(k, w[k], row) {
        assert Holds(k, r[k], row);
      }
    }
  }
}
