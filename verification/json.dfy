/**
 * Parsed JSON values as `json.loads` hands them to the scraper, and the two
 * ways the scraper reads them: fixed dotted field paths (the jmespath query of
 * `parse_thread`) and the depth-agnostic key search of `nested_lookup`.
 *
 * An object keeps its members in insertion order, as a Python dict does. A
 * dict never binds a key twice; the functions below are total on any member
 * sequence and read the first binding of a key.
 */
module Json {
  import opened Wrappers

  datatype Json =
    | Null
    | Bool(b: bool)
    | Int(i: int)
    | Str(s: string)
    | Arr(elems: seq<Json>)
    | Obj(members: seq<(string, Json)>)

  /** Python truthiness: `None`, `False`, `0`, `""`, `[]` and `{}` are falsy. */
  predicate Truthy(j: Json) {
    match j
    case Null => false
    case Bool(b) => b
    case Int(i) => i != 0
    case Str(s) => s != []
    case Arr(es) => es != []
    case Obj(ms) => ms != []
  }

  /** The value bound to `key` among `ms`, if any (the first binding wins). */
  function Get(ms: seq<(string, Json)>, key: string): (r: Option<Json>)
    ensures r.None? <==> forall i :: 0 <= i < |ms| ==> ms[i].0 != key
    ensures r.Some? ==>
      exists i :: 0 <= i < |ms| && ms[i] == (key, r.value) &&
        forall h :: 0 <= h < i ==> ms[h].0 != key
  {
    if ms == [] then None
    else if ms[0].0 == key then Some(ms[0].1)
    else
      var r := Get(ms[1..], key);
      assert forall i :: 1 <= i < |ms| ==> ms[i] == ms[1..][i - 1];
      r
  }

  /**
   * Reference relation for a field step: `j` is an object whose first member
   * with key `key` has value `v`.
   */
  ghost predicate Binds(j: Json, key: string, v: Json) {
    && j.Obj?
    && exists i :: 0 <= i < |j.members| && j.members[i] == (key, v) &&
         forall h :: 0 <= h < i ==> j.members[h].0 != key
  }

  /**
   * One jmespath field step: the value bound to `key` when `j` is an object
   * holding it, and null otherwise (a missing key or a non-object is not an
   * error).
   */
  function Field(j: Json, key: string): (r: Json)
    ensures !j.Obj? ==> r == Null
    ensures j.Obj? && (forall i :: 0 <= i < |j.members| ==> j.members[i].0 != key) ==> r == Null
    ensures forall v :: Binds(j, key, v) ==> r == v
    ensures r != Null ==> Binds(j, key, r)
  {
    if j.Obj? then
      var g := Get(j.members, key);
      assert forall v :: Binds(j, key, v) ==> g == Some(v) by {
        forall v | Binds(j, key, v) ensures g == Some(v) {
          var i :| 0 <= i < |j.members| && j.members[i] == (key, v) &&
            forall h :: 0 <= h < i ==> j.members[h].0 != key;
          if g.Some? {
            var i' :| 0 <= i' < |j.members| && j.members[i'] == (key, g.value) &&
              forall h :: 0 <= h < i' ==> j.members[h].0 != key;
            assert i == i';
          }
        }
      }
      g.GetOr(Null)
    else Null
  }

  /** A dotted jmespath path such as `post.caption.text`, one field step per key. */
  function Path(j: Json, keys: seq<string>): Json
    decreases |keys|
  {
    if keys == [] then j else Path(Field(j, keys[0]), keys[1..])
  }

  /** Once a step yields null, every later step yields null. */
  lemma {:induction false} PathOfNull(keys: seq<string>)
    ensures Path(Null, keys) == Null
    decreases |keys|
  {
    if keys != [] {
      PathOfNull(keys[1..]);
    }
  }

  /** Resolving `a + b` is resolving `a`, then `b` from where `a` landed. */
  lemma {:induction false} PathAppend(j: Json, a: seq<string>, b: seq<string>)
    ensures Path(j, a + b) == Path(Path(j, a), b)
    decreases |a|
  {
    if a == [] {
      assert a + b == b;
    } else {
      assert (a + b)[0] == a[0];
      assert (a + b)[1..] == a[1..] + b;
      PathAppend(Field(j, a[0]), a[1..], b);
    }
  }

  /**
   * A missing key or a non-object at any step makes the whole path null,
   * rather than raising.
   */
  lemma PathBlocked(j: Json, keys: seq<string>, n: nat)
    requires n < |keys|
    requires Field(Path(j, keys[..n]), keys[n]) == Null
    ensures Path(j, keys) == Null
  {
    assert keys == keys[..n] + ([keys[n]] + keys[n + 1..]);
    PathAppend(j, keys[..n], [keys[n]] + keys[n + 1..]);
    PathAppend(Path(j, keys[..n]), [keys[n]], keys[n + 1..]);
    PathOfNull(keys[n + 1..]);
  }

  /** A non-null result means every step landed on an object that binds the next key. */
  lemma PathWalksObjects(j: Json, keys: seq<string>, n: nat)
    requires n < |keys|
    requires Path(j, keys) != Null
    ensures Path(j, keys[..n]).Obj?
    ensures Field(Path(j, keys[..n]), keys[n]) != Null
  {
    if Field(Path(j, keys[..n]), keys[n]) == Null {
      PathBlocked(j, keys, n);
    }
  }

  /**
   * Reference relation for a dotted path: starting at `j`, each key in turn is
   * bound by the object reached so far, and the last one binds `v`.
   */
  ghost predicate Reaches(j: Json, keys: seq<string>, v: Json)
    decreases |keys|
  {
    if keys == [] then v == j
    else exists w :: Binds(j, keys[0], w) && Reaches(w, keys[1..], v)
  }

  /**
   * A path resolves to the value its chain of bindings reaches, and a non-null
   * result is always reached by such a chain; so with no chain the result is null.
   */
  lemma {:induction false} PathReaches(j: Json, keys: seq<string>, v: Json)
    ensures Reaches(j, keys, v) ==> Path(j, keys) == v
    ensures Path(j, keys) != Null ==> Reaches(j, keys, Path(j, keys))
    decreases |keys|
  {
    if keys != [] {
      var w := Field(j, keys[0]);
      PathReaches(w, keys[1..], v);
      PathReaches(w, keys[1..], Path(w, keys[1..]));
      if w == Null {
        PathOfNull(keys[1..]);
      }
    }
  }

  /**
   * `nested_lookup(key, j)`: every value bound to `key` at any depth, in
   * traversal order. Arrays are walked element by element; an object's
   * members are visited in order, yielding a member's value when its key is
   * `key` and then descending into that value. Scalars yield nothing.
   */
  function Lookup(key: string, j: Json): seq<Json>
    decreases j
  {
    match j
    case Arr(es) => LookupElems(key, es)
    case Obj(ms) => LookupMembers(key, ms)
    case _ => []
  }

  function LookupElems(key: string, es: seq<Json>): seq<Json>
    decreases es
  {
    if es == [] then [] else Lookup(key, es[0]) + LookupElems(key, es[1..])
  }

  function LookupMembers(key: string, ms: seq<(string, Json)>): seq<Json>
    decreases ms
  {
    if ms == [] then []
    else
      var (k, v) := ms[0];
      assert ms[0] in ms;
      assert v < ms[0];
      (if k == key then [v] else []) + Lookup(key, v) + LookupMembers(key, ms[1..])
  }

  /**
   * Reference definition of the search: `v` is bound to `key` by some member
   * of some object reachable from `j` through arrays and member values.
   */
  ghost predicate Bound(key: string, v: Json, j: Json)
    decreases j
  {
    match j
    case Arr(es) => exists e :: e in es && Bound(key, v, e)
    case Obj(ms) => exists m :: m in ms && ((m.0 == key && m.1 == v) || Bound(key, v, m.1))
    case _ => false
  }

  /** The search finds exactly the bound values, at whatever depth they sit. */
  lemma {:induction false} LookupFindsBound(key: string, v: Json, j: Json)
    ensures v in Lookup(key, j) <==> Bound(key, v, j)
    decreases j, 1
  {
    match j
    case Arr(es) => LookupElemsFindsBound(key, v, es);
    case Obj(ms) => LookupMembersFindsBound(key, v, ms);
    case _ =>
  }

  lemma {:induction false} LookupElemsFindsBound(key: string, v: Json, es: seq<Json>)
    ensures v in LookupElems(key, es) <==> exists e :: e in es && Bound(key, v, e)
    decreases es, 0
  {
    if es != [] {
      LookupFindsBound(key, v, es[0]);
      LookupElemsFindsBound(key, v, es[1..]);
      assert forall e :: e in es <==> e == es[0] || e in es[1..];
    }
  }

  lemma {:induction false} LookupMembersFindsBound(key: string, v: Json, ms: seq<(string, Json)>)
    ensures v in LookupMembers(key, ms) <==>
      exists m :: m in ms && ((m.0 == key && m.1 == v) || Bound(key, v, m.1))
    decreases ms, 0
  {
    if ms != [] {
      assert ms[0] in ms;
      assert ms[0].1 < ms[0];
      LookupFindsBound(key, v, ms[0].1);
      LookupMembersFindsBound(key, v, ms[1..]);
      assert forall m :: m in ms <==> m == ms[0] || m in ms[1..];
    }
  }
}
