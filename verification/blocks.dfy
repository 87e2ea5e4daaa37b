/**
 * The marker pre-filter of `scrape_profile` (scraper.py:55-59): the texts of
 * the page's `application/json` script elements are visited in document order,
 * and only those mentioning both the server-rendering payload family and the
 * post-collection key go on to be parsed.
 */
module Blocks {
  import opened Seqs

  /** The payload family marker, quotes included. */
  const ServerMarker: string := "\"ScheduledServerJS\""

  /** The key naming a collection of posts; its mere mention is the second marker. */
  const ItemsKey: string := "thread_items"

  /** `sub` occurs in `s` starting at index `i`. */
  predicate OccursAt(s: string, sub: string, i: int)
    requires 0 <= i <= |s| - |sub|
  {
    s[i..i + |sub|] == sub
  }

  /** Python's substring test `sub in s`. */
  predicate Contains(s: string, sub: string) {
    exists i :: 0 <= i <= |s| - |sub| && OccursAt(s, sub, i)
  }

  /** A block is parsed only if it mentions both markers. */
  predicate Qualifies(block: string) {
    Contains(block, ServerMarker) && Contains(block, ItemsKey)
  }

  /** The blocks that survive the pre-filter, in document order. */
  function Candidates(blocks: seq<string>): (r: seq<string>)
    ensures forall b :: b in r <==> b in blocks && Qualifies(b)
    ensures forall b :: multiset(r)[b] == if Qualifies(b) then multiset(blocks)[b] else 0
    ensures Subsequence(r, blocks)
    ensures |r| <= |blocks|
  {
    if blocks == [] then []
    else
      var rest := Candidates(blocks[1..]);
      assert forall b :: b in blocks <==> b == blocks[0] || b in blocks[1..];
      assert blocks == [blocks[0]] + blocks[1..];
      assert multiset(blocks) == multiset([blocks[0]]) + multiset(blocks[1..]);
      if Qualifies(blocks[0]) then
        assert ([blocks[0]] + rest)[1..] == rest;
        assert multiset([blocks[0]] + rest) == multiset([blocks[0]]) + multiset(rest);
        [blocks[0]] + rest
      else rest
  }

  /** A page whose script texts all lack a marker has no candidate block. */
  lemma NoMarkersNoCandidates(blocks: seq<string>)
    requires forall b :: b in blocks ==> !Contains(b, ServerMarker) || !Contains(b, ItemsKey)
    ensures Candidates(blocks) == []
  {
    if Candidates(blocks) != [] {
      assert Candidates(blocks)[0] in Candidates(blocks);
    }
  }
}
