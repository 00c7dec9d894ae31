/**
 * How the ingestion code reads the JSON-like dictionaries of the dbt artifacts:
 * subscripting, `.get`, `in`, truthiness, f-string formatting, `str.lower` and `str.join`.
 */
module PyJson {
  import opened Wrappers

  /** What a JSON object holds under one key: no entry at all, an explicit `null`, or a value. */
  datatype Field<+T> = Absent | Null | Val(value: T)

  /** `d[k]`: raises KeyError when the key is missing, gives `None` for a JSON null. */
  function Subscript<T>(f: Field<T>): Result<Option<T>>
  {
    match f
    case Absent => Raise(KeyError)
    case Null => Ok(None)
    case Val(v) => Ok(Some(v))
  }

  /**
   * `d[k]` whose value the code goes on to subscript, iterate or call a method on: a null raises
   * as well, with the exception the use of `None` gives.
   */
  function SubscriptObject<T>(f: Field<T>, onNull: Exception): Result<T>
  {
    match f
    case Absent => Raise(KeyError)
    case Null => Raise(onNull)
    case Val(v) => Ok(v)
  }

  /** `d.get(k)`. */
  function Get<T>(f: Field<T>): Option<T>
  {
    if f.Val? then Some(f.value) else None
  }

  /** `d.get(k, default)`: the default only when the key is missing. */
  function GetOr<T>(f: Field<T>, default: T): Option<T>
  {
    match f
    case Absent => Some(default)
    case Null => None
    case Val(v) => Some(v)
  }

  /** `k in d`. */
  predicate Has<T>(f: Field<T>)
  {
    !f.Absent?
  }

  /** Python truthiness of a value that is a string or `None`. */
  predicate Truthy(o: Option<string>)
  {
    o.Some? && o.value != ""
  }

  /** `f"{x}"` for a value that is a string or `None`. */
  function Str(o: Option<string>): string
  {
    if o.Some? then o.value else "None"
  }

  function LowerChar(c: char): char
  {
    if 'A' <= c <= 'Z' then (c as int + 32) as char else c
  }

  /** `str.lower`, restricted to ASCII letters. */
  function Lower(s: string): (r: string)
    ensures |r| == |s|
    ensures forall i :: 0 <= i < |s| ==> r[i] == LowerChar(s[i])
  {
    seq(|s|, i requires 0 <= i < |s| => LowerChar(s[i]))
  }

  /** Lower-casing leaves no upper-case ASCII letter, and lower-casing again changes nothing. */
  lemma LowerFacts(s: string)
    ensures forall i :: 0 <= i < |s| ==> !('A' <= Lower(s)[i] <= 'Z')
    ensures Lower(Lower(s)) == Lower(s)
  {
    assert forall i :: 0 <= i < |s| ==> LowerChar(LowerChar(s[i])) == LowerChar(s[i]);
  }

  /** `sep.join(parts)`. */
  function Join(sep: string, parts: seq<string>): string
  {
    if |parts| == 0 then ""
    else if |parts| == 1 then parts[0]
    else parts[0] + sep + Join(sep, parts[1..])
  }

  /** `s.split(c)` for a one-character separator: the inverse of `Join`. */
  function Split(s: string, c: char): (r: seq<string>)
    ensures |r| >= 1
  {
    if s == [] then [[]]
    else
      var rest := Split(s[1..], c);
      if s[0] == c then [[]] + rest
      else [[s[0]] + rest[0]] + rest[1..]
  }

  lemma {:induction false} SplitWithout(a: string, c: char)
    requires c !in a
    ensures Split(a, c) == [a]
  {
    if a != [] {
      SplitWithout(a[1..], c);
      assert [a[0]] + a[1..] == a;
    }
  }

  lemma {:induction false} SplitAcross(a: string, c: char, b: string)
    requires c !in a
    ensures Split(a + [c] + b, c) == [a] + Split(b, c)
  {
    if a == [] {
      assert a + [c] + b == [c] + b;
      assert ([c] + b)[1..] == b;
    } else {
      assert (a + [c] + b)[1..] == a[1..] + [c] + b;
      SplitAcross(a[1..], c, b);
      assert [a[0]] + a[1..] == a;
    }
  }

  /** Splitting a comma-joined list gives the list back, when no part contains the separator. */
  lemma {:induction false} SplitJoin(parts: seq<string>, c: char)
    requires |parts| >= 1
    requires forall i :: 0 <= i < |parts| ==> c !in parts[i]
    ensures Split(Join([c], parts), c) == parts
  {
    if |parts| == 1 {
      SplitWithout(parts[0], c);
    } else {
      SplitJoin(parts[1..], c);
      SplitAcross(parts[0], c, Join([c], parts[1..]));
      assert [parts[0]] + parts[1..] == parts;
    }
  }
}
