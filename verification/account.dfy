/**
 * One account's run inside the loop of `main` (scraper.py:107-117): scrape,
 * build the feed, and name the output file. A raised exception means no file
 * is written for that account; it cannot affect another account, since each
 * run starts from its own empty seen-set.
 */
module Account {
  import opened Wrappers
  import opened Json
  import opened Errors
  import opened Threads
  import opened Blocks
  import opened Scrape
  import opened Feed

  /**
   * The file name and feed written for `username`, given the script texts of
   * its rendered page, the JSON parser and the build-time clock reading.
   */
  function RunAccount(username: string, blocks: seq<string>, parse: string -> Option<Json>, buildDate: string)
    : (r: Result<(string, Channel), Error>)
    ensures r.Ok? <==>
      ScrapeProfile(parse, blocks).Ok? &&
      GenerateRss(username, ScrapeProfile(parse, blocks).value, buildDate).Ok?
    ensures r.Ok? ==> r.value.0 == OutputName(username)
    ensures r.Ok? ==> |r.value.1.items| == |ScrapeProfile(parse, blocks).value|
  {
    var posts :- ScrapeProfile(parse, blocks);
    var feed :- GenerateRss(username, posts, buildDate);
    Ok((OutputName(username), feed))
  }

  /**
   * An account whose page has no block carrying both markers still gets a
   * feed file, with the channel metadata and no items.
   */
  lemma EmptyPageEmptyFeed(username: string, blocks: seq<string>, parse: string -> Option<Json>, buildDate: string)
    requires forall b :: b in blocks ==> !Qualifies(b)
    ensures RunAccount(username, blocks, parse, buildDate) ==
      Ok((OutputName(username),
          Channel("@" + username + " - Threads", ProfileUrl(username),
                  "Threads posts from @" + username, buildDate, [])))
  {
    ScrapeProfileNoCandidates(parse, blocks);
  }

  /** The item of a post with truthy text has a non-empty description and a bounded title. */
  lemma ItemOfTruthyText(p: Post, it: Item)
    requires Truthy(p.text) && FeedItem(p) == Ok(it)
    ensures it.description != "" && |it.title| <= TitleLimit + |Ellipsis| && it.link == it.guid
  {
    assert p.text.Str?;
    var t := p.text.s;
    assert it.description == t && it.title == Title(t);
  }

  /**
   * Every item of a written feed comes from a kept post: its description is
   * the post's non-empty text and its title is that text cut to at most 83
   * characters.
   */
  lemma FeedItemsFromKeptPosts(
    username: string, blocks: seq<string>, parse: string -> Option<Json>, buildDate: string,
    name: string, feed: Channel)
    requires RunAccount(username, blocks, parse, buildDate) == Ok((name, feed))
    ensures forall it :: it in feed.items ==>
      it.description != "" && |it.title| <= TitleLimit + |Ellipsis| && it.link == it.guid
  {
    var posts := ScrapeProfile(parse, blocks).value;
    ScrapeProfileResult(parse, blocks, posts);
    forall it | it in feed.items
      ensures it.description != "" && |it.title| <= TitleLimit + |Ellipsis| && it.link == it.guid
    {
      var i :| 0 <= i < |feed.items| && feed.items[i] == it;
      assert posts[i] in posts;
      ItemOfTruthyText(posts[i], it);
    }
  }
}
