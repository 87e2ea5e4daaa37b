/**
 * The deduplicating loop of `scrape_profile` (scraper.py:53-67): drafts are
 * visited in discovery order with a seen-set of codes local to one call; a
 * draft is kept iff its text is truthy and its code has not been kept before.
 */
module Deduplicator {
  import opened Wrappers
  import opened Json
  import opened Errors
  import opened Threads
  import opened Seqs

  /**
   * A hashable Python value as an element of a set. `bool` is a subtype of
   * `int`, so `True` and `1` (and `False` and `0`) are one element; `None` is
   * an element like any other.
   */
  datatype Key = NoneKey | IntKey(n: int) | StrKey(s: string)

  /** The set element a code stands for; a list or dict has none (it is unhashable). */
  function HashKey(code: Json): (r: Option<Key>)
    ensures r.None? <==> code.Arr? || code.Obj?
  {
    match code
    case Null => Some(NoneKey)
    case Bool(b) => Some(IntKey(if b then 1 else 0))
    case Int(i) => Some(IntKey(i))
    case Str(s) => Some(StrKey(s))
    case _ => None
  }

  /** The numeric value of a Python `int` or `bool`. */
  function Number(j: Json): int
    requires j.Int? || j.Bool?
  {
    if j.Int? then j.i else if j.b then 1 else 0
  }

  /** Python `==` on hashable JSON scalars. */
  predicate PyEq(a: Json, b: Json) {
    || (a.Null? && b.Null?)
    || (a.Str? && b.Str? && a.s == b.s)
    || ((a.Int? || a.Bool?) && (b.Int? || b.Bool?) && Number(a) == Number(b))
  }

  /** Two hashable codes are one set element exactly when Python finds them equal. */
  lemma HashKeyIsPythonEquality(a: Json, b: Json)
    requires HashKey(a).Some? && HashKey(b).Some?
    ensures HashKey(a) == HashKey(b) <==> PyEq(a, b)
  {
  }

  function KeyOf(p: Post): Option<Key> {
    HashKey(p.code)
  }

  /** No draft with truthy text has an unhashable code. */
  predicate Hashable(ds: seq<Post>) {
    forall i :: 0 <= i < |ds| && Truthy(ds[i].text) ==> KeyOf(ds[i]).Some?
  }

  /** `ds[i]` has truthy text and no earlier draft with truthy text shares its code. */
  predicate FirstOf(ds: seq<Post>, i: int)
    requires 0 <= i < |ds|
  {
    && Truthy(ds[i].text)
    && forall j :: 0 <= j < i && Truthy(ds[j].text) ==> KeyOf(ds[j]) != KeyOf(ds[i])
  }

  /**
   * Reference definition of the deduplicator's output: the drafts that are
   * first with their code among the drafts with truthy text, in order.
   */
  function FirstOccurrences(ds: seq<Post>): seq<Post>
    decreases |ds|
  {
    if ds == [] then []
    else
      var n := |ds| - 1;
      FirstOccurrences(ds[..n]) + (if FirstOf(ds, n) then [ds[n]] else [])
  }

  /** The codes of the drafts with truthy text. */
  function SeenKeys(ds: seq<Post>): set<Key> {
    set i | 0 <= i < |ds| && Truthy(ds[i].text) && KeyOf(ds[i]).Some? :: KeyOf(ds[i]).value
  }

  /** The loop state: the posts kept so far and the codes already seen. */
  datatype State = State(kept: seq<Post>, seen: set<Key>)

  const Start: State := State([], {})

  /**
   * One turn of the loop body. The membership test hashes the code, so a
   * kept-text draft whose code is a list or dict raises.
   */
  function DedupStep(st: State, p: Post): (r: Result<State, Error>)
    ensures r.Err? <==> Truthy(p.text) && KeyOf(p).None?
    ensures r.Err? ==> r.error == Unhashable
  {
    if !Truthy(p.text) then Ok(st)
    else
      match KeyOf(p)
      case None => Err(Unhashable)
      case Some(k) =>
        if k in st.seen then Ok(st) else Ok(State(st.kept + [p], st.seen + {k}))
  }

  /** The loop over `ds`, as a left fold from `st`. */
  function DedupFrom(ds: seq<Post>, st: State): Result<State, Error>
    decreases |ds|
  {
    if ds == [] then Ok(st)
    else
      var next :- DedupStep(st, ds[0]);
      DedupFrom(ds[1..], next)
  }

  /** The fold over one draft is one loop step. */
  lemma DedupFromSingle(p: Post, st: State)
    ensures DedupFrom([p], st) == DedupStep(st, p)
  {
    assert [p][1..] == [];
  }

  /** Folding over `a + b` folds over `a`, then over `b` from where `a` stopped. */
  lemma {:induction false} DedupFromAppend(a: seq<Post>, b: seq<Post>, st: State)
    ensures DedupFrom(a + b, st) ==
      match DedupFrom(a, st)
      case Ok(s) => DedupFrom(b, s)
      case Err(e) => Err(e)
    decreases |a|
  {
    if a == [] {
      assert a + b == b;
    } else {
      assert (a + b)[0] == a[0];
      assert (a + b)[1..] == a[1..] + b;
      match DedupStep(st, a[0])
      case Ok(next) => DedupFromAppend(a[1..], b, next);
      case Err(_) =>
    }
  }

  lemma SeenKeysSnoc(a: seq<Post>, p: Post)
    ensures SeenKeys(a + [p]) ==
      SeenKeys(a) + (if Truthy(p.text) && KeyOf(p).Some? then {KeyOf(p).value} else {})
  {
    var ds := a + [p];
    assert forall i :: 0 <= i < |a| ==> ds[i] == a[i];
    assert ds[|a|] == p;
  }

  /** A draft whose text is falsy or whose code was already seen is skipped. */
  lemma StepSkips(a: seq<Post>, p: Post)
    requires !Truthy(p.text) || (KeyOf(p).Some? && KeyOf(p).value in SeenKeys(a))
    ensures FirstOccurrences(a + [p]) == FirstOccurrences(a)
    ensures SeenKeys(a + [p]) == SeenKeys(a)
  {
    var ds := a + [p];
    var n := |a|;
    assert ds[..n] == a;
    SeenKeysSnoc(a, p);
    if Truthy(p.text) {
      var i :| 0 <= i < n && Truthy(a[i].text) && KeyOf(a[i]).Some? && KeyOf(a[i]).value == KeyOf(p).value;
      assert ds[i] == a[i];
    }
    assert !FirstOf(ds, n);
  }

  /** A draft with truthy text and an unseen hashable code is kept. */
  lemma StepKeeps(a: seq<Post>, p: Post)
    requires Truthy(p.text) && KeyOf(p).Some? && KeyOf(p).value !in SeenKeys(a)
    ensures FirstOccurrences(a + [p]) == FirstOccurrences(a) + [p]
    ensures SeenKeys(a + [p]) == SeenKeys(a) + {KeyOf(p).value}
  {
    var ds := a + [p];
    var n := |a|;
    assert ds[..n] == a;
    SeenKeysSnoc(a, p);
    forall j | 0 <= j < n && Truthy(ds[j].text)
      ensures KeyOf(ds[j]) != KeyOf(p)
    {
      assert ds[j] == a[j];
      if KeyOf(a[j]).Some? {
        assert KeyOf(a[j]).value in SeenKeys(a);
      }
    }
    assert FirstOf(ds, n);
  }

  /** One loop step from the state after `a` gives the state after `a + [p]`. */
  lemma DedupStepSnoc(a: seq<Post>, p: Post)
    requires !Truthy(p.text) || KeyOf(p).Some?
    ensures DedupStep(State(FirstOccurrences(a), SeenKeys(a)), p) ==
      Ok(State(FirstOccurrences(a + [p]), SeenKeys(a + [p])))
  {
    if !Truthy(p.text) || KeyOf(p).value in SeenKeys(a) {
      StepSkips(a, p);
    } else {
      StepKeeps(a, p);
    }
  }

  /** From the empty state, a hashable fold keeps exactly the first occurrences. */
  lemma {:induction false} DedupFromStart(ds: seq<Post>)
    requires Hashable(ds)
    ensures DedupFrom(ds, Start) == Ok(State(FirstOccurrences(ds), SeenKeys(ds)))
    decreases |ds|
  {
    if ds == [] {
      assert SeenKeys(ds) == {};
    } else {
      var n := |ds| - 1;
      var a, p := ds[..n], ds[n];
      assert ds == a + [p];
      assert forall i :: 0 <= i < n ==> a[i] == ds[i];
      assert Hashable(a);
      DedupFromStart(a);
      DedupFromAppend(a, [p], Start);
      DedupFromSingle(p, State(FirstOccurrences(a), SeenKeys(a)));
      DedupStepSnoc(a, p);
    }
  }

  /** A fold over drafts that are not all hashable raises, whatever the state. */
  lemma {:induction false} DedupFromUnhashable(ds: seq<Post>, st: State)
    requires !Hashable(ds)
    ensures DedupFrom(ds, st).Err?
    decreases |ds|
  {
    assert ds != [];
    if DedupStep(st, ds[0]).Ok? {
      var i :| 0 <= i < |ds| && Truthy(ds[i].text) && KeyOf(ds[i]).None?;
      assert i != 0;
      assert ds[1..][i - 1] == ds[i];
      DedupFromUnhashable(ds[1..], DedupStep(st, ds[0]).value);
    }
  }

  lemma DedupFromOutcome(ds: seq<Post>)
    ensures Hashable(ds) ==> DedupFrom(ds, Start) == Ok(State(FirstOccurrences(ds), SeenKeys(ds)))
    ensures !Hashable(ds) ==> DedupFrom(ds, Start).Err?
  {
    if Hashable(ds) {
      DedupFromStart(ds);
    } else {
      DedupFromUnhashable(ds, Start);
    }
  }

  /**
   * The deduplicator over a whole draft list, from a fresh seen-set. It raises
   * exactly when some kept-text draft has an unhashable code; otherwise it
   * returns the first occurrences.
   */
  function Dedup(ds: seq<Post>): (r: Result<seq<Post>, Error>)
    ensures r.Ok? <==> Hashable(ds)
    ensures r.Ok? ==> r.value == FirstOccurrences(ds)
  {
    DedupFromOutcome(ds);
    var s :- DedupFrom(ds, Start);
    Ok(s.kept)
  }

  /** Every first occurrence comes from the drafts, with truthy text and first with its code. */
  lemma {:induction false} FirstOccurrencesMembers(ds: seq<Post>)
    ensures forall q :: q in FirstOccurrences(ds) ==>
      exists i :: 0 <= i < |ds| && ds[i] == q && FirstOf(ds, i)
    decreases |ds|
  {
    if ds != [] {
      var n := |ds| - 1;
      var a := ds[..n];
      FirstOccurrencesMembers(a);
      forall q | q in FirstOccurrences(ds)
        ensures exists i :: 0 <= i < |ds| && ds[i] == q && FirstOf(ds, i)
      {
        if q in FirstOccurrences(a) {
          var i :| 0 <= i < |a| && a[i] == q && FirstOf(a, i);
          assert ds[i] == q && FirstOf(ds, i);
        } else {
          assert q == ds[n] && FirstOf(ds, n);
        }
      }
    }
  }

  /** Every draft that is first with its code is kept. */
  lemma {:induction false} FirstOccurrencesComplete(ds: seq<Post>)
    ensures forall i :: 0 <= i < |ds| && FirstOf(ds, i) ==> ds[i] in FirstOccurrences(ds)
    decreases |ds|
  {
    if ds != [] {
      var n := |ds| - 1;
      var a := ds[..n];
      FirstOccurrencesComplete(a);
      forall i | 0 <= i < |ds| && FirstOf(ds, i)
        ensures ds[i] in FirstOccurrences(ds)
      {
        if i < n {
          assert a[i] == ds[i] && FirstOf(a, i);
        }
      }
    }
  }

  /** No two first occurrences share a code. */
  lemma {:induction false} FirstOccurrencesDistinct(ds: seq<Post>)
    ensures forall i, j :: 0 <= i < j < |FirstOccurrences(ds)| ==>
      KeyOf(FirstOccurrences(ds)[i]) != KeyOf(FirstOccurrences(ds)[j])
    decreases |ds|
  {
    if ds != [] {
      var n := |ds| - 1;
      var a := ds[..n];
      FirstOccurrencesDistinct(a);
      FirstOccurrencesMembers(a);
      var fa := FirstOccurrences(a);
      if FirstOf(ds, n) {
        var f := fa + [ds[n]];
        forall i | 0 <= i < |fa|
          ensures KeyOf(f[i]) != KeyOf(ds[n])
        {
          assert fa[i] in fa;
          var h :| 0 <= h < |a| && a[h] == fa[i] && FirstOf(a, h);
          assert ds[h] == fa[i];
        }
      }
    }
  }

  lemma {:induction false} FirstOccurrencesSubsequence(ds: seq<Post>)
    ensures Subsequence(FirstOccurrences(ds), ds)
    decreases |ds|
  {
    if ds != [] {
      var n := |ds| - 1;
      FirstOccurrencesSubsequence(ds[..n]);
      SubsequenceSnoc(FirstOccurrences(ds[..n]), ds[..n], ds[n], FirstOf(ds, n));
      assert ds[..n] + [ds[n]] == ds;
      assert FirstOccurrences(ds) ==
        if FirstOf(ds, n) then FirstOccurrences(ds[..n]) + [ds[n]] else FirstOccurrences(ds[..n]);
    }
  }

  /** A list of kept-text posts with pairwise distinct codes is its own first occurrences. */
  lemma {:induction false} FirstOccurrencesOfDistinct(xs: seq<Post>)
    requires forall i :: 0 <= i < |xs| ==> Truthy(xs[i].text)
    requires forall i, j :: 0 <= i < j < |xs| ==> KeyOf(xs[i]) != KeyOf(xs[j])
    ensures FirstOccurrences(xs) == xs
    decreases |xs|
  {
    if xs != [] {
      var n := |xs| - 1;
      var a := xs[..n];
      forall i, j | 0 <= i < j < |a|
        ensures Truthy(a[i].text) && KeyOf(a[i]) != KeyOf(a[j])
      {
        assert a[i] == xs[i] && a[j] == xs[j];
      }
      FirstOccurrencesOfDistinct(a);
      forall j | 0 <= j < n && Truthy(xs[j].text)
        ensures KeyOf(xs[j]) != KeyOf(xs[n])
      {
      }
      assert FirstOf(xs, n);
      assert FirstOccurrences(xs) == a + [xs[n]];
      assert a + [xs[n]] == xs;
    }
  }

  /**
   * What the deduplicator keeps: every kept post has truthy text and a
   * hashable code, no two kept posts share a code, and the output is an
   * order-preserving subsequence of the drafts.
   */
  lemma DedupKeepsUniqueTextPosts(ds: seq<Post>, out: seq<Post>)
    requires Dedup(ds) == Ok(out)
    ensures forall p :: p in out ==> Truthy(p.text) && KeyOf(p).Some?
    ensures forall i, j :: 0 <= i < j < |out| ==> KeyOf(out[i]) != KeyOf(out[j])
    ensures Subsequence(out, ds)
  {
    FirstOccurrencesMembers(ds);
    FirstOccurrencesDistinct(ds);
    FirstOccurrencesSubsequence(ds);
  }

  /**
   * First occurrence wins: a draft is kept exactly when its text is truthy
   * and no earlier draft with truthy text has the same code; and every code
   * of a kept-text draft is represented in the output.
   */
  lemma DedupFirstWins(ds: seq<Post>, out: seq<Post>)
    requires Dedup(ds) == Ok(out)
    ensures forall i :: 0 <= i < |ds| && FirstOf(ds, i) ==> ds[i] in out
    ensures forall q :: q in out ==> exists i :: 0 <= i < |ds| && ds[i] == q && FirstOf(ds, i)
    ensures forall i :: 0 <= i < |ds| && Truthy(ds[i].text) ==>
      exists q :: q in out && KeyOf(q) == KeyOf(ds[i])
  {
    FirstOccurrencesMembers(ds);
    FirstOccurrencesComplete(ds);
    forall i | 0 <= i < |ds| && Truthy(ds[i].text)
      ensures exists q :: q in out && KeyOf(q) == KeyOf(ds[i])
    {
      var f := FirstWithKey(ds, i);
      assert ds[f] in out;
    }
  }

  /**
   * However many drafts share a code, the output holds exactly one post with
   * it: the first of them.
   */
  lemma DedupOnePerCode(ds: seq<Post>, out: seq<Post>, i: int)
    requires Dedup(ds) == Ok(out)
    requires 0 <= i < |ds| && FirstOf(ds, i)
    ensures ds[i] in out
    ensures forall q :: q in out && KeyOf(q) == KeyOf(ds[i]) ==> q == ds[i]
  {
    DedupFirstWins(ds, out);
    forall q | q in out && KeyOf(q) == KeyOf(ds[i])
      ensures q == ds[i]
    {
      var h :| 0 <= h < |ds| && ds[h] == q && FirstOf(ds, h);
    }
  }

  /** The index of the first kept-text draft sharing the code of `ds[i]`. */
  lemma FirstWithKey(ds: seq<Post>, i: int) returns (f: int)
    requires 0 <= i < |ds| && Truthy(ds[i].text)
    ensures 0 <= f <= i && FirstOf(ds, f) && KeyOf(ds[f]) == KeyOf(ds[i])
    decreases i
  {
    if FirstOf(ds, i) {
      f := i;
    } else {
      var j :| 0 <= j < i && Truthy(ds[j].text) && KeyOf(ds[j]) == KeyOf(ds[i]);
      f := FirstWithKey(ds, j);
    }
  }

  /** A missing code is one shared key: at most one code-less post survives. */
  lemma DedupAtMostOneCodeless(ds: seq<Post>, out: seq<Post>)
    requires Dedup(ds) == Ok(out)
    ensures forall i, j :: 0 <= i < |out| && 0 <= j < |out| && out[i].code == Null && out[j].code == Null ==> i == j
  {
    DedupKeepsUniqueTextPosts(ds, out);
  }

  /** Running the deduplicator over its own output returns it unchanged. */
  lemma DedupIdempotent(ds: seq<Post>, out: seq<Post>)
    requires Dedup(ds) == Ok(out)
    ensures Dedup(out) == Ok(out)
  {
    DedupKeepsUniqueTextPosts(ds, out);
    FirstOccurrencesOfDistinct(out);
    assert Hashable(out) by {
      forall i | 0 <= i < |out| && Truthy(out[i].text)
        ensures KeyOf(out[i]).Some?
      {
        assert out[i] in out;
      }
    }
  }
}
