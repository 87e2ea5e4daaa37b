/**
 * The data contract of `generate_rss` (scraper.py:71-97) and the output file
 * name of `main` (scraper.py:114). The feed is a value; its XML text and the
 * date formatting are not modelled.
 */
module Feed {
  import opened Wrappers
  import opened Json
  import opened Errors
  import opened Threads

  /** How many characters of a post's text an item title keeps. */
  const TitleLimit: nat := 80

  /** Appended to a title that was cut short. */
  const Ellipsis: string := "..."

  /** One `<item>`: `pubDate` is the epoch second it is formatted from, when present. */
  datatype Item = Item(
    title: string,
    link: string,
    description: string,
    pubDate: Option<int>,
    guid: string)

  /** The `<channel>`; `lastBuildDate` is the formatted clock reading taken when the feed is built. */
  datatype Channel = Channel(
    title: string,
    link: string,
    description: string,
    lastBuildDate: string,
    items: seq<Item>)

  /**
   * The item title: the text cut to its first 80 characters, with an ellipsis
   * appended exactly when something was cut.
   */
  function Title(text: string): (t: string)
    ensures |text| <= TitleLimit ==> t == text
    ensures |text| > TitleLimit ==>
      && |t| == TitleLimit + |Ellipsis|
      && t[..TitleLimit] == text[..TitleLimit]
      && t[TitleLimit..] == Ellipsis
  {
    var cut := if |text| <= TitleLimit then text else text[..TitleLimit];
    if |text| > TitleLimit then cut + Ellipsis else cut
  }

  /** An 85-character text gives an 83-character title; an 80-character one is kept whole. */
  lemma TitleLengths(text: string)
    ensures |text| == 85 ==> |Title(text)| == 83
    ensures |text| == 80 ==> Title(text) == text
  {
  }

  /**
   * The `<pubDate>` source: absent for a falsy `published_on`. A truthy one
   * must be a number for `datetime.fromtimestamp` (a boolean counts as 0 or 1).
   */
  function PubDate(publishedOn: Json): (r: Result<Option<int>, Error>)
    ensures r.Ok? ==> (r.value.Some? <==> Truthy(publishedOn))
    ensures r.Err? <==> Truthy(publishedOn) && !publishedOn.Int? && !publishedOn.Bool?
    ensures r.Err? ==> r.error == BadTimestamp
    ensures publishedOn.Int? && publishedOn.i != 0 ==> r == Ok(Some(publishedOn.i))
  {
    if !Truthy(publishedOn) then Ok(None)
    else
      match publishedOn
      case Int(n) => Ok(Some(n))
      case Bool(_) => Ok(Some(1))
      case _ => Err(BadTimestamp)
  }

  /**
   * The texts `generate_rss` can take: a string, or an empty list or dict.
   * For an empty list or dict the title is cut from `""`, `len` is 0, and the
   * XML writer writes a falsy element text as an empty element. Any other
   * text raises at its own item: null, `0` and `False` at `len`; a truthy
   * number or boolean and a non-empty dict at the slice; a non-empty list
   * when the XML writer meets it as element text.
   */
  predicate Writable(text: Json) {
    text.Str? || text == Arr([]) || text == Obj([])
  }

  /** The characters a writable text contributes to the title and description elements. */
  function Written(text: Json): string {
    if text.Str? then text.s else ""
  }

  /**
   * The item for one post: its text must be writable, and a truthy
   * `published_on` must be a timestamp.
   */
  function FeedItem(p: Post): (r: Result<Item, Error>)
    ensures r.Ok? <==> Writable(p.text) && PubDate(p.publishedOn).Ok?
    ensures !Writable(p.text) ==> r == Err(NotText)
    ensures r.Ok? ==>
      && r.value.title == Title(Written(p.text))
      && r.value.description == Written(p.text)
      && r.value.link == p.url
      && r.value.guid == p.url
      && (r.value.pubDate.Some? <==> Truthy(p.publishedOn))
    ensures r.Ok? && !p.text.Str? ==> r.value.title == "" && r.value.description == ""
  {
    if !Writable(p.text) then Err(NotText)
    else
      var date :- PubDate(p.publishedOn);
      var text := Written(p.text);
      Ok(Item(Title(text), p.url, text, date, p.url))
  }

  /** One item per post, in order. */
  function FeedItems(posts: seq<Post>): (r: Result<seq<Item>, Error>)
    ensures r.Ok? <==> forall i :: 0 <= i < |posts| ==> FeedItem(posts[i]).Ok?
    ensures r.Ok? ==> |r.value| == |posts|
    ensures r.Ok? ==> forall i :: 0 <= i < |posts| ==> FeedItem(posts[i]) == Ok(r.value[i])
    decreases |posts|
  {
    if posts == [] then Ok([])
    else
      assert forall i :: 1 <= i < |posts| ==> posts[i] == posts[1..][i - 1];
      var first :- FeedItem(posts[0]);
      var rest :- FeedItems(posts[1..]);
      Ok([first] + rest)
  }

  /** The address of an account's profile page. */
  function ProfileUrl(username: string): string {
    UrlBase + username
  }

  /** `generate_rss(username, posts)` with the clock reading `buildDate` as a parameter. */
  function GenerateRss(username: string, posts: seq<Post>, buildDate: string): (r: Result<Channel, Error>)
    ensures r.Ok? <==> forall i :: 0 <= i < |posts| ==> FeedItem(posts[i]).Ok?
    ensures r.Ok? ==> |r.value.items| == |posts|
    ensures r.Ok? ==> forall i :: 0 <= i < |posts| ==> FeedItem(posts[i]) == Ok(r.value.items[i])
    ensures r.Ok? ==>
      && r.value.title == "@" + username + " - Threads"
      && r.value.link == ProfileUrl(username)
      && r.value.description == "Threads posts from @" + username
      && r.value.lastBuildDate == buildDate
  {
    var items :- FeedItems(posts);
    Ok(Channel("@" + username + " - Threads", ProfileUrl(username),
               "Threads posts from @" + username, buildDate, items))
  }

  /** The account name with every `.` replaced by `-`. */
  function Dashed(username: string): (d: string)
    ensures |d| == |username|
    ensures '.' !in d
    ensures forall i :: 0 <= i < |username| && username[i] != '.' ==> d[i] == username[i]
    ensures forall i :: 0 <= i < |username| && username[i] == '.' ==> d[i] == '-'
  {
    seq(|username|, i requires 0 <= i < |username| => if username[i] == '.' then '-' else username[i])
  }

  /** The path the account's feed is written to. */
  function OutputName(username: string): (name: string)
    ensures |name| == |"feeds/"| + |username| + |".xml"|
    ensures name[..6] == "feeds/" && name[|name| - 4..] == ".xml"
    ensures name[6..|name| - 4] == Dashed(username)
  {
    "feeds/" + Dashed(username) + ".xml"
  }
}
