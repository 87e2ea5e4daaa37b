/**
 * The extraction loop of `scrape_profile` (scraper.py:53-68) as written: one
 * pass over the script texts in which filtering, parsing, key search,
 * normalisation and deduplication are interleaved, with a seen-set that starts
 * empty on every call. It is shown to agree with the staged pipeline
 * `ThreadItems`, `Drafts`, `Dedup`: both return the same posts, and one raises
 * exactly when the other does (possibly a different exception, since the
 * interleaved loop stops at the first one it meets).
 */
module Scrape {
  import opened Wrappers
  import opened Json
  import opened Errors
  import opened Threads
  import opened Blocks
  import opened Deduplicator
  import opened Extract

  /** `for t in thread:` normalise `t`, then run the deduplicating test on it. */
  function ScrapeItems(items: seq<Json>, st: State): Result<State, Error>
    decreases |items|
  {
    if items == [] then Ok(st)
    else
      var p :- ParseThread(items[0]);
      var next :- DedupStep(st, p);
      ScrapeItems(items[1..], next)
  }

  /** `for thread in thread_items:` iterate each found value. */
  function ScrapeValues(values: seq<Json>, st: State): Result<State, Error>
    decreases |values|
  {
    if values == [] then Ok(st)
    else
      var items :- Iterate(values[0]);
      var next :- ScrapeItems(items, st);
      ScrapeValues(values[1..], next)
  }

  /** `for hidden_dataset in hidden_datasets:` skip, or parse and search. */
  function ScrapeBlocks(parse: string -> Option<Json>, blocks: seq<string>, st: State): Result<State, Error>
    decreases |blocks|
  {
    if blocks == [] then Ok(st)
    else if !Qualifies(blocks[0]) then ScrapeBlocks(parse, blocks[1..], st)
    else
      match parse(blocks[0])
      case None => Err(BadJson)
      case Some(data) =>
        var next :- ScrapeValues(Lookup(ItemsKey, data), st);
        ScrapeBlocks(parse, blocks[1..], next)
  }

  /**
   * The posts `scrape_profile` returns for the script texts of one page, or
   * the exception it raises; `parse` stands for `json.loads`.
   */
  function ScrapeProfile(parse: string -> Option<Json>, blocks: seq<string>): Result<seq<Post>, Error> {
    var st :- ScrapeBlocks(parse, blocks, Start);
    Ok(st.kept)
  }

  /** The same computation stage by stage. */
  function Staged(parse: string -> Option<Json>, blocks: seq<string>): Result<seq<Post>, Error> {
    var items :- ThreadItems(parse, blocks);
    var drafts :- Drafts(items);
    Dedup(drafts)
  }

  /** Normalise then deduplicate `items` from `st`, forgetting which exception was raised. */
  function Process(items: seq<Json>, st: State): Option<State> {
    match Drafts(items)
    case Ok(ds) => DedupFrom(ds, st).ToOption()
    case Err(_) => None
  }

  lemma ProcessAppend(a: seq<Json>, b: seq<Json>, st: State)
    ensures Process(a + b, st) ==
      match Process(a, st)
      case Some(s) => Process(b, s)
      case None => None
  {
    DraftsAppend(a, b);
    if Drafts(a).Ok? && Drafts(b).Ok? {
      DedupFromAppend(Drafts(a).value, Drafts(b).value, st);
    }
  }

  lemma {:induction false} ScrapeItemsIsProcess(items: seq<Json>, st: State)
    ensures ScrapeItems(items, st).ToOption() == Process(items, st)
    decreases |items|
  {
    if items == [] {
      assert Drafts(items) == Ok([]);
    } else {
      var t := items[0];
      assert items == [t] + items[1..];
      ProcessAppend([t], items[1..], st);
      DraftsSingle(t);
      match ParseThread(t)
      case Err(_) =>
      case Ok(p) =>
        DedupFromSingle(p, st);
        match DedupStep(st, p)
        case Err(_) =>
        case Ok(next) => ScrapeItemsIsProcess(items[1..], next);
    }
  }

  lemma {:induction false} ScrapeValuesIsProcess(values: seq<Json>, st: State)
    ensures ScrapeValues(values, st).ToOption() ==
      match IterateAll(values)
      case Ok(items) => Process(items, st)
      case Err(_) => None
    decreases |values|
  {
    if values != [] {
      match Iterate(values[0])
      case Err(_) =>
      case Ok(first) =>
        ScrapeItemsIsProcess(first, st);
        match IterateAll(values[1..]) {
          case Err(_) =>
            match ScrapeItems(first, st) {
              case Err(_) =>
              case Ok(next) => ScrapeValuesIsProcess(values[1..], next);
            }
          case Ok(rest) =>
            ProcessAppend(first, rest, st);
            match ScrapeItems(first, st) {
              case Err(_) =>
              case Ok(next) => ScrapeValuesIsProcess(values[1..], next);
            }
        }
    }
  }

  lemma {:induction false} ScrapeBlocksIsProcess(parse: string -> Option<Json>, blocks: seq<string>, st: State)
    ensures ScrapeBlocks(parse, blocks, st).ToOption() ==
      match ThreadItems(parse, blocks)
      case Ok(items) => Process(items, st)
      case Err(_) => None
    decreases |blocks|
  {
    if blocks == [] {
      assert Drafts([]) == Ok([]);
    } else {
      var b := blocks[0];
      var rest := Candidates(blocks[1..]);
      if !Qualifies(b) {
        assert Candidates(blocks) == rest;
        ScrapeBlocksIsProcess(parse, blocks[1..], st);
      } else {
        assert Candidates(blocks) == [b] + rest;
        assert ([b] + rest)[0] == b && ([b] + rest)[1..] == rest;
        match parse(b)
        case None =>
        case Some(data) =>
          var values := Lookup(ItemsKey, data);
          ScrapeValuesIsProcess(values, st);
          match IterateAll(values)
          case Err(_) =>
          case Ok(first) =>
            match ItemsOf(parse, rest) {
              case Err(_) =>
                match ScrapeValues(values, st) {
                  case Err(_) =>
                  case Ok(next) => ScrapeBlocksIsProcess(parse, blocks[1..], next);
                }
              case Ok(tail) =>
                ProcessAppend(first, tail, st);
                match ScrapeValues(values, st) {
                  case Err(_) =>
                  case Ok(next) => ScrapeBlocksIsProcess(parse, blocks[1..], next);
                }
            }
      }
    }
  }

  /**
   * The interleaved loop and the staged pipeline return the same posts, and
   * one raises exactly when the other does.
   */
  lemma ScrapeProfileIsStaged(parse: string -> Option<Json>, blocks: seq<string>)
    ensures ScrapeProfile(parse, blocks).ToOption() == Staged(parse, blocks).ToOption()
  {
    ScrapeBlocksIsProcess(parse, blocks, Start);
  }

  /**
   * What `scrape_profile` returns: the first occurrences among the drafts of
   * the thread items found in the candidate blocks, so every post has truthy
   * text and no two posts share a code.
   */
  lemma ScrapeProfileResult(parse: string -> Option<Json>, blocks: seq<string>, posts: seq<Post>)
    requires ScrapeProfile(parse, blocks) == Ok(posts)
    ensures ThreadItems(parse, blocks).Ok?
    ensures Drafts(ThreadItems(parse, blocks).value).Ok?
    ensures posts == FirstOccurrences(Drafts(ThreadItems(parse, blocks).value).value)
    ensures forall p :: p in posts ==> Truthy(p.text)
    ensures forall i, j :: 0 <= i < j < |posts| ==> KeyOf(posts[i]) != KeyOf(posts[j])
  {
    ScrapeProfileIsStaged(parse, blocks);
    var drafts := Drafts(ThreadItems(parse, blocks).value).value;
    DedupKeepsUniqueTextPosts(drafts, posts);
  }

  /** A page none of whose script texts carries both markers yields no posts and cannot fail. */
  lemma ScrapeProfileNoCandidates(parse: string -> Option<Json>, blocks: seq<string>)
    requires forall b :: b in blocks ==> !Qualifies(b)
    ensures ScrapeProfile(parse, blocks) == Ok([])
  {
    NoCandidatesNoItems(parse, blocks);
    assert Drafts([]) == Ok([]);
    assert FirstOccurrences([]) == [];
    ScrapeProfileIsStaged(parse, blocks);
  }
}
