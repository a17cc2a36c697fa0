/** The loosely typed records the copilot reads from its log file: each record is a
    JSON object, kept as an ordered list of fields (Python dicts keep insertion
    order), each field holding a tagged scalar. */
module Values {
  import opened Text

  datatype Option<T> = None | Some(value: T)

  datatype Result<T, E> = Ok(value: T) | Err(error: E)

  /** A JSON scalar as Python loads it. A float is carried as its Python repr: the
      model never computes with floats, it only renders them. */
  datatype Scalar = Int(i: int) | Float(repr: string) | Str(s: string) | Bool(b: bool) | Null

  datatype Field = Field(name: string, value: Scalar)

  type Record = seq<Field>

  function Names(r: Record): (ns: seq<string>)
    ensures |ns| == |r| && forall i :: 0 <= i < |r| ==> ns[i] == r[i].name
  {
    seq(|r|, i requires 0 <= i < |r| => r[i].name)
  }

  /** The position of the first occurrence of x in s. */
  function IndexOf<T(==)>(s: seq<T>, x: T): (i: nat)
    requires x in s
    ensures i < |s| && s[i] == x
    ensures forall j :: 0 <= j < i ==> s[j] != x
  {
    if s[0] == x then 0 else 1 + IndexOf(s[1..], x)
  }

  /** `r.get(k)`: the value of the first field named k, if there is one. */
  function Lookup(r: Record, k: string): (v: Option<Scalar>)
    ensures v.None? <==> k !in Names(r)
    ensures v.Some? ==> v.value == r[IndexOf(Names(r), k)].value
    decreases |r|
  {
    if r == [] then None
    else if r[0].name == k then Some(r[0].value)
    else
      assert Names(r) == [r[0].name] + Names(r[1..]);
      var v := Lookup(r[1..], k);
      assert v.Some? ==> IndexOf(Names(r), k) == 1 + IndexOf(Names(r[1..]), k);
      v
  }

  /** `r[k] = v`: overwrite the field named k in place, or append it when r has none. */
  function Put(r: Record, k: string, v: Scalar): Record
    decreases |r|
  {
    if r == [] then [Field(k, v)]
    else if r[0].name == k then [Field(k, v)] + r[1..]
    else [r[0]] + Put(r[1..], k, v)
  }

  /** After the update, k holds v. */
  lemma {:induction false} PutLookupSame(r: Record, k: string, v: Scalar)
    ensures Lookup(Put(r, k, v), k) == Some(v)
    decreases |r|
  {
    if r != [] && r[0].name != k {
      PutLookupSame(r[1..], k, v);
      assert Put(r, k, v)[1..] == Put(r[1..], k, v);
    }
  }

  /** The update leaves every other name's value as it was. */
  lemma {:induction false} PutLookupOther(r: Record, k: string, v: Scalar, k': string)
    requires k' != k
    ensures Lookup(Put(r, k, v), k') == Lookup(r, k')
    decreases |r|
  {
    if r == [] {
    } else if r[0].name == k {
      assert Put(r, k, v)[1..] == r[1..];
    } else if r[0].name != k' {
      PutLookupOther(r[1..], k, v, k');
      assert Put(r, k, v)[1..] == Put(r[1..], k, v);
    }
  }

  /** The names of a record with one more field in front. */
  lemma NamesCons(f: Field, r: Record)
    ensures Names([f] + r) == [f.name] + Names(r)
  {
  }

  /** The field order changes only by k being appended when it was new. */
  lemma {:induction false} PutNames(r: Record, k: string, v: Scalar)
    ensures Names(Put(r, k, v)) == if k in Names(r) then Names(r) else Names(r) + [k]
    decreases |r|
  {
    if r != [] {
      var rest := r[1..];
      assert r == [r[0]] + rest;
      NamesCons(r[0], rest);
      if r[0].name == k {
        NamesCons(Field(k, v), rest);
      } else {
        var tail := Put(rest, k, v);
        PutNames(rest, k, v);
        NamesCons(r[0], tail);
      }
    }
  }

  /** Python's str() of a scalar, as an f-string inserts it. */
  function Render(v: Scalar): string {
    match v
    case Int(i) => IntText(i)
    case Float(repr) => repr
    case Str(s) => s
    case Bool(b) => if b then "True" else "False"
    case Null => "None"
  }
}
