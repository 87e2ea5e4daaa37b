/**
 * From candidate blocks to drafts (scraper.py:55-64): each block that passed
 * the marker filter is parsed, every value bound to `thread_items` anywhere in
 * it is found, each such value is iterated, and each item is normalised.
 */
module Extract {
  import opened Wrappers
  import opened Json
  import opened Errors
  import opened Threads
  import opened Blocks

  /** The values `for t in thread` can iterate: lists, dicts and strings. */
  predicate Iterable(v: Json) {
    v.Arr? || v.Obj? || v.Str?
  }

  /**
   * What `for t in thread` visits: a list's elements, a dict's keys, or a
   * string's characters (each a one-character string).
   */
  function Elements(v: Json): seq<Json> {
    match v
    case Arr(es) => es
    case Obj(ms) => seq(|ms|, i requires 0 <= i < |ms| => Str(ms[i].0))
    case Str(s) => seq(|s|, i requires 0 <= i < |s| => Str([s[i]]))
    case _ => []
  }

  /** Only a list yields anything but strings, which normalise to the all-null post. */
  lemma NonArrayYieldsStrings(v: Json)
    requires !v.Arr?
    ensures forall t :: t in Elements(v) ==> t.Str? && ParseThread(t) == Ok(EmptyPost)
  {
    forall t | t in Elements(v)
      ensures t.Str? && ParseThread(t) == Ok(EmptyPost)
    {
      ParseWithoutPost(t);
    }
  }

  /** `for t in thread`: iterating null, a boolean or a number raises. */
  function Iterate(v: Json): (r: Result<seq<Json>, Error>)
    ensures r.Ok? <==> Iterable(v)
    ensures r.Err? ==> r.error == NotIterable
    ensures v.Arr? ==> r == Ok(v.elems)
  {
    if Iterable(v) then Ok(Elements(v)) else Err(NotIterable)
  }

  /** The items of every found value, flattened one level, in lookup order. */
  function IterateAll(vs: seq<Json>): (r: Result<seq<Json>, Error>)
    ensures r.Ok? <==> forall v :: v in vs ==> Iterable(v)
    ensures r.Ok? ==> forall t :: t in r.value <==> exists v :: v in vs && t in Elements(v)
    decreases |vs|
  {
    if vs == [] then Ok([])
    else
      assert forall v :: v in vs <==> v == vs[0] || v in vs[1..];
      var first :- Iterate(vs[0]);
      var rest :- IterateAll(vs[1..]);
      Ok(first + rest)
  }

  /** Flattening one found value is iterating it. */
  lemma IterateAllSingle(v: Json)
    ensures IterateAll([v]) == Iterate(v)
  {
    assert [v][1..] == [];
    if Iterate(v).Ok? {
      assert Iterate(v).value + [] == Iterate(v).value;
    }
  }

  /**
   * Flattening `a + b` flattens `a`, then `b`: the items keep lookup order,
   * each value contributing its items once, in iteration order.
   */
  lemma {:induction false} IterateAllAppend(a: seq<Json>, b: seq<Json>)
    ensures IterateAll(a + b).Ok? <==> IterateAll(a).Ok? && IterateAll(b).Ok?
    ensures IterateAll(a + b).Ok? ==>
      IterateAll(a + b).value == IterateAll(a).value + IterateAll(b).value
    decreases |a|
  {
    if a == [] {
      assert a + b == b;
    } else {
      assert (a + b)[0] == a[0];
      assert (a + b)[1..] == a[1..] + b;
      IterateAllAppend(a[1..], b);
      if Iterate(a[0]).Ok? && IterateAll(a[1..] + b).Ok? {
        var x := Iterate(a[0]).value;
        assert x + (IterateAll(a[1..]).value + IterateAll(b).value)
            == (x + IterateAll(a[1..]).value) + IterateAll(b).value;
      }
    }
  }

  /** One candidate block: parse it, then iterate every `thread_items` value found in it. */
  function BlockItems(parse: string -> Option<Json>, block: string): Result<seq<Json>, Error> {
    match parse(block)
    case None => Err(BadJson)
    case Some(data) => IterateAll(Lookup(ItemsKey, data))
  }

  /** The items of the given blocks, in block order. */
  function ItemsOf(parse: string -> Option<Json>, blocks: seq<string>): Result<seq<Json>, Error>
    decreases |blocks|
  {
    if blocks == [] then Ok([])
    else
      var first :- BlockItems(parse, blocks[0]);
      var rest :- ItemsOf(parse, blocks[1..]);
      Ok(first + rest)
  }

  /** The raw thread items of a page: only the candidate blocks are parsed. */
  function ThreadItems(parse: string -> Option<Json>, blocks: seq<string>): Result<seq<Json>, Error> {
    ItemsOf(parse, Candidates(blocks))
  }

  /** The items of `a + b` are those of `a` followed by those of `b`. */
  lemma {:induction false} ItemsOfAppend(parse: string -> Option<Json>, a: seq<string>, b: seq<string>)
    ensures ItemsOf(parse, a + b).Ok? <==> ItemsOf(parse, a).Ok? && ItemsOf(parse, b).Ok?
    ensures ItemsOf(parse, a + b).Ok? ==>
      ItemsOf(parse, a + b).value == ItemsOf(parse, a).value + ItemsOf(parse, b).value
    decreases |a|
  {
    if a == [] {
      assert a + b == b;
    } else {
      assert (a + b)[0] == a[0];
      assert (a + b)[1..] == a[1..] + b;
      ItemsOfAppend(parse, a[1..], b);
      if BlockItems(parse, a[0]).Ok? && ItemsOf(parse, a[1..] + b).Ok? {
        var x := BlockItems(parse, a[0]).value;
        assert x + (ItemsOf(parse, a[1..]).value + ItemsOf(parse, b).value)
            == (x + ItemsOf(parse, a[1..]).value) + ItemsOf(parse, b).value;
      }
    }
  }

  /** The items of one block are that block's items. */
  lemma ItemsOfSingle(parse: string -> Option<Json>, block: string)
    ensures ItemsOf(parse, [block]) == BlockItems(parse, block)
  {
    assert [block][1..] == [];
    if BlockItems(parse, block).Ok? {
      assert BlockItems(parse, block).value + [] == BlockItems(parse, block).value;
    }
  }

  /**
   * A block without both markers is never parsed: two parsers that agree on
   * the qualifying blocks give the same items.
   */
  lemma {:induction false} UnqualifiedBlocksNotParsed(
    parse1: string -> Option<Json>, parse2: string -> Option<Json>, blocks: seq<string>)
    requires forall b :: b in blocks && Qualifies(b) ==> parse1(b) == parse2(b)
    ensures ThreadItems(parse1, blocks) == ThreadItems(parse2, blocks)
  {
    SameParseSameItems(parse1, parse2, Candidates(blocks));
  }

  lemma {:induction false} SameParseSameItems(
    parse1: string -> Option<Json>, parse2: string -> Option<Json>, blocks: seq<string>)
    requires forall b :: b in blocks ==> parse1(b) == parse2(b)
    ensures ItemsOf(parse1, blocks) == ItemsOf(parse2, blocks)
    decreases |blocks|
  {
    if blocks != [] {
      assert blocks[0] in blocks;
      assert forall b :: b in blocks[1..] ==> b in blocks;
      SameParseSameItems(parse1, parse2, blocks[1..]);
    }
  }

  /** A page with no candidate block yields no items, whatever the parser. */
  lemma NoCandidatesNoItems(parse: string -> Option<Json>, blocks: seq<string>)
    requires forall b :: b in blocks ==> !Qualifies(b)
    ensures ThreadItems(parse, blocks) == Ok([])
  {
    NoMarkersNoCandidates(blocks);
  }

  /**
   * The items are exactly the elements of the `thread_items`-bound values
   * found at any depth of the parsed candidate blocks.
   */
  lemma {:induction false} ThreadItemsAreBoundElements(
    parse: string -> Option<Json>, blocks: seq<string>, items: seq<Json>)
    requires ThreadItems(parse, blocks) == Ok(items)
    ensures forall t :: t in items <==>
      exists b, v :: b in blocks && Qualifies(b) && parse(b).Some? &&
        Bound(ItemsKey, v, parse(b).value) && t in Elements(v)
  {
    ItemsOfBound(parse, Candidates(blocks), items);
  }

  lemma {:induction false} ItemsOfBound(parse: string -> Option<Json>, blocks: seq<string>, items: seq<Json>)
    requires ItemsOf(parse, blocks) == Ok(items)
    ensures forall t :: t in items <==>
      exists b, v :: b in blocks && parse(b).Some? &&
        Bound(ItemsKey, v, parse(b).value) && t in Elements(v)
    decreases |blocks|
  {
    if blocks != [] {
      var b0 := blocks[0];
      var first := BlockItems(parse, b0).value;
      var rest := ItemsOf(parse, blocks[1..]).value;
      ItemsOfBound(parse, blocks[1..], rest);
      assert items == first + rest;
      var d := parse(b0).value;
      forall v
        ensures v in Lookup(ItemsKey, d) <==> Bound(ItemsKey, v, d)
      {
        LookupFindsBound(ItemsKey, v, d);
      }
      forall t
        ensures t in items <==>
          exists b, v :: b in blocks && parse(b).Some? &&
            Bound(ItemsKey, v, parse(b).value) && t in Elements(v)
      {
        if t in first {
          var v :| v in Lookup(ItemsKey, d) && t in Elements(v);
          assert b0 in blocks;
        } else if t in rest {
          var b, v :| b in blocks[1..] && parse(b).Some? &&
            Bound(ItemsKey, v, parse(b).value) && t in Elements(v);
          assert b in blocks;
        }
        if exists b, v :: b in blocks && parse(b).Some? &&
            Bound(ItemsKey, v, parse(b).value) && t in Elements(v) {
          var b, v :| b in blocks && parse(b).Some? &&
            Bound(ItemsKey, v, parse(b).value) && t in Elements(v);
          if b == b0 {
            assert t in first;
          } else {
            assert b in blocks[1..];
            assert t in rest;
          }
        }
      }
    }
  }

  /**
   * `parse_thread` over every item. It raises exactly when some item is null;
   * otherwise there is one draft per item, in order.
   */
  function Drafts(items: seq<Json>): (r: Result<seq<Post>, Error>)
    ensures r.Ok? <==> Null !in items
    ensures r.Ok? ==> |r.value| == |items|
    ensures r.Ok? ==> forall i :: 0 <= i < |items| ==> ParseThread(items[i]) == Ok(r.value[i])
  {
    if Null in items then Err(NullItem)
    else Ok(seq(|items|, i requires 0 <= i < |items| => ParseThread(items[i]).value))
  }

  /** Normalising a single item is `parse_thread` on it. */
  lemma DraftsSingle(t: Json)
    ensures Drafts([t]) == if t == Null then Err(NullItem) else Ok([ParseThread(t).value])
  {
    assert Null in [t] <==> t == Null;
    if t != Null {
      var d := Drafts([t]).value;
      assert |d| == 1 && d[0] == ParseThread([t][0]).value;
      assert d == [ParseThread(t).value];
    }
  }

  /** The drafts of `a + b` are those of `a` followed by those of `b`. */
  lemma DraftsAppend(a: seq<Json>, b: seq<Json>)
    ensures Drafts(a + b).Ok? <==> Drafts(a).Ok? && Drafts(b).Ok?
    ensures Drafts(a + b).Ok? ==> Drafts(a + b).value == Drafts(a).value + Drafts(b).value
  {
    var ab := a + b;
    assert Null in ab <==> Null in a || Null in b;
    if Null !in ab {
      var x, y, z := Drafts(a).value, Drafts(b).value, Drafts(ab).value;
      forall i | 0 <= i < |z|
        ensures z[i] == (x + y)[i]
      {
        if i < |a| {
          assert ab[i] == a[i];
        } else {
          assert ab[i] == b[i - |a|];
        }
      }
    }
  }
}
