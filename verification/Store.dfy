/** The platform's store: one atom holding nested maps, read and written by key paths. */
module Store {

  /** `NilKey` is the key that an empty path writes to. */
  datatype Key = NilKey | Key(name: string)

  datatype Value = Nil | Scalar(number: int) | Node(entries: map<Key, Value>)

  /** `Thrown`: the map operation was applied to something that is no map. */
  datatype Result<+T> = Ok(value: T) | Thrown

  type Path = seq<Key>

  // ---- the map operations ----------------------------------------------------------------------------

  function Get(m: Value, k: Key): Value { if m.Node? && k in m.entries then m.entries[k] else Nil }

  function Assoc(m: Value, k: Key, v: Value): Result<Value> {
    match m
    case Nil => Ok(Node(map[k := v]))
    case Node(entries) => Ok(Node(entries[k := v]))
    case Scalar(_) => Thrown
  }

  function GetIn(m: Value, p: Path): Value
    decreases |p|
  {
    if p == [] then m else GetIn(Get(m, p[0]), p[1..])
  }

  function FirstKey(p: Path): Key { if p == [] then NilKey else p[0] }

  function AssocIn(m: Value, p: Path, v: Value): Result<Value>
    decreases |p|
  {
    if |p| <= 1 then Assoc(m, FirstKey(p), v)
    else
      match AssocIn(Get(m, p[0]), p[1..], v)
      case Thrown => Thrown
      case Ok(inner) => Assoc(m, p[0], inner)
  }

  function UpdateIn(m: Value, p: Path, f: Value -> Result<Value>): Result<Value>
    decreases |p|
  {
    if |p| <= 1 then
      match f(Get(m, FirstKey(p)))
      case Thrown => Thrown
      case Ok(v) => Assoc(m, FirstKey(p), v)
    else
      match UpdateIn(Get(m, p[0]), p[1..], f)
      case Thrown => Thrown
      case Ok(inner) => Assoc(m, p[0], inner)
  }

  // ---- their laws ------------------------------------------------------------------------------------

  /** A path is written unless a scalar stands in its way. */
  lemma {:induction false} AssocInSucceedsIff(m: Value, p: Path, v: Value)
    ensures AssocIn(m, p, v).Ok? <==> forall i :: 0 <= i < |p| || i == 0 ==> !GetIn(m, p[..i]).Scalar?
    ensures AssocIn(m, p, v).Ok? ==> AssocIn(m, p, v).value.Node?
    decreases |p|
  {
    assert GetIn(m, p[..0]) == m;
    if |p| > 1 {
      AssocInSucceedsIff(Get(m, p[0]), p[1..], v);
      forall i | 0 <= i < |p| - 1
        ensures GetIn(Get(m, p[0]), p[1..][..i]) == GetIn(m, p[..i + 1])
      {
        assert p[..i + 1][1..] == p[1..][..i];
      }
      if AssocIn(m, p, v).Ok? {
        forall i | 0 < i < |p|
          ensures !GetIn(m, p[..i]).Scalar?
        {
          assert GetIn(Get(m, p[0]), p[1..][..i - 1]) == GetIn(m, p[..i]);
        }
      }
    }
  }

  /** What was written is read at and below its path. */
  lemma {:induction false} GetAtOrBelow(m: Value, p: Path, v: Value, below: Path)
    requires p != [] && AssocIn(m, p, v).Ok?
    ensures GetIn(AssocIn(m, p, v).value, p + below) == GetIn(v, below)
    decreases |p|
  {
    assert (p + below)[0] == p[0] && (p + below)[1..] == p[1..] + below;
    if |p| == 1 {
      assert p[1..] + below == below;
    } else {
      GetAtOrBelow(Get(m, p[0]), p[1..], v, below);
    }
  }

  /** Above it, the map there has been written in the same way. */
  lemma {:induction false} GetAbove(m: Value, above: Path, rest: Path, v: Value)
    requires rest != [] && AssocIn(m, above + rest, v).Ok?
    ensures AssocIn(GetIn(m, above), rest, v) == Ok(GetIn(AssocIn(m, above + rest, v).value, above))
    decreases |above|
  {
    if above == [] {
      assert above + rest == rest;
    } else {
      assert (above + rest)[0] == above[0] && (above + rest)[1..] == above[1..] + rest;
      GetAbove(Get(m, above[0]), above[1..], rest, v);
    }
  }

  predicate Diverge(p: Path, q: Path) {
    exists i :: 0 <= i < |p| && i < |q| && p[i] != q[i]
  }

  /** Elsewhere nothing changed. */
  lemma {:induction false} GetElsewhere(m: Value, p: Path, v: Value, q: Path)
    requires AssocIn(m, p, v).Ok? && Diverge(p, q)
    ensures GetIn(AssocIn(m, p, v).value, q) == GetIn(m, q)
    decreases |p|
  {
    if p[0] == q[0] {
      var i :| 0 <= i < |p| && i < |q| && p[i] != q[i];
      assert p[1..][i - 1] != q[1..][i - 1];
      GetElsewhere(Get(m, p[0]), p[1..], v, q[1..]);
    }
  }

  /** Paths agree, one leads to the other, or they diverge. */
  lemma PathsCompare(p: Path, q: Path)
    ensures Diverge(p, q) || p <= q || q <= p
  {
  }

  /** Updating a path is writing there what the function makes of the value read there. */
  lemma {:induction false} UpdateIsWriteOfRead(m: Value, p: Path, f: Value -> Result<Value>)
    ensures var found := if p == [] then Get(m, NilKey) else GetIn(m, p);
            UpdateIn(m, p, f) == match f(found) case Thrown => Thrown case Ok(v) => AssocIn(m, p, v)
    decreases |p|
  {
    if |p| == 1 {
      assert GetIn(m, p) == Get(m, p[0]);
    } else if |p| > 1 {
      UpdateIsWriteOfRead(Get(m, p[0]), p[1..], f);
    }
  }

  /** An empty path does not replace the store: it writes under the nil key, and reading it back gives the store. */
  lemma EmptyPathWritesNilKey(m: Value, v: Value)
    requires !m.Scalar?
    ensures AssocIn(m, [], v).Ok?
    ensures var after := AssocIn(m, [], v).value;
            && GetIn(after, []) == after
            && Get(after, NilKey) == v
            && forall k :: k != NilKey ==> Get(after, k) == Get(m, k)
  {
  }

  /** So a write is read back at its own path if and only if the path is not empty. */
  lemma ReadBackIff(m: Value, p: Path, v: Value)
    requires AssocIn(m, p, v).Ok?
    ensures GetIn(AssocIn(m, p, v).value, p) == v <==> p != []
  {
    var after := AssocIn(m, p, v).value;
    if p == [] {
      assert after.entries[NilKey] < after;
    } else {
      GetAtOrBelow(m, p, v, []);
      assert p + [] == p;
    }
  }

  // ---- the atom --------------------------------------------------------------------------------------

  datatype Write = Write(path: Path, value: Value)

  const INITIAL: Value :=
    Node(map[Key("teleporter") := Node(map[]), Key("jam") := Node(map[])])

  /** A write that throws leaves the atom as it was. */
  function Written(m: Value, w: Write): Value {
    match AssocIn(m, w.path, w.value)
    case Ok(after) => after
    case Thrown => m
  }

  function StateAfter(writes: seq<Write>): Value {
    if writes == [] then INITIAL else Written(StateAfter(writes[..|writes| - 1]), writes[|writes| - 1])
  }

  class Atom {
    var state: Value
    ghost var writes: seq<Write>

    ghost predicate Valid()
      reads this
    {
      state == StateAfter(writes)
    }

    constructor ()
      ensures Valid() && writes == []
      ensures state == Node(map[Key("teleporter") := Node(map[]), Key("jam") := Node(map[])])
    {
      state, writes := INITIAL, [];
    }

    method Rd(p: Path) returns (v: Value)
      requires Valid()
      ensures v == GetIn(StateAfter(writes), p)
    {
      v := GetIn(state, p);
    }

    /** The two-argument write. */
    method Wr(p: Path, v: Value) returns (result: Result<Value>)
      requires Valid()
      modifies this
      ensures Valid() && writes == old(writes) + [Write(p, v)]
      ensures result == AssocIn(old(state), p, v)
      ensures state == if result.Ok? then result.value else old(state)
    {
      result := AssocIn(state, p, v);
      if result.Ok? {
        state := result.value;
      }
      writes := writes + [Write(p, v)];
      assert writes[..|writes| - 1] == old(writes);
    }

    /** The three-argument write: unless the function throws, it writes what the function makes of the value read at
        the path (at the nil key, for the empty path) and of the argument. */
    method WrWith(p: Path, v: Value, f: (Value, Value) -> Result<Value>) returns (result: Result<Value>)
      requires Valid()
      modifies this
      ensures Valid()
      ensures var made := f(if p == [] then Get(old(state), NilKey) else GetIn(old(state), p), v);
              if made.Ok? then
                writes == old(writes) + [Write(p, made.value)] && result == AssocIn(old(state), p, made.value)
              else
                writes == old(writes) && result == Thrown
      ensures state == if result.Ok? then result.value else old(state)
    {
      ghost var made := f(if p == [] then Get(state, NilKey) else GetIn(state, p), v);
      UpdateIsWriteOfRead(state, p, x => f(x, v));
      result := UpdateIn(state, p, x => f(x, v));
      if result.Ok? {
        state := result.value;
      }
      if made.Ok? {
        writes := writes + [Write(p, made.value)];
        assert writes[..|writes| - 1] == old(writes);
      }
    }
  }
}
