/**
 * `parse_thread` (scraper.py:13-25): one raw thread item becomes a post of
 * five independently queried fields plus a derived canonical url.
 */
module Threads {
  import opened Wrappers
  import opened Json
  import opened Errors

  /**
   * A normalised post. Each queried field holds whatever JSON value its path
   * resolved to, null when the path did not resolve.
   */
  datatype Post = Post(
    text: Json,
    publishedOn: Json,
    code: Json,
    username: Json,
    likeCount: Json,
    url: string)

  const TextPath: seq<string> := ["post", "caption", "text"]
  const PublishedOnPath: seq<string> := ["post", "taken_at"]
  const CodePath: seq<string> := ["post", "code"]
  const UsernamePath: seq<string> := ["post", "user", "username"]
  const LikeCountPath: seq<string> := ["post", "like_count"]

  /** The fixed prefix of every canonical post address. */
  const UrlBase: string := "https://www.threads.net/@"

  function DigitChar(d: nat): char
    requires d < 10
  {
    "0123456789"[d]
  }

  /** The decimal digits of `n`, most significant first, as Python's `str` writes them. */
  function Digits(n: nat): (r: string)
    ensures |r| > 0
    decreases n
  {
    if n < 10 then [DigitChar(n)] else Digits(n / 10) + [DigitChar(n % 10)]
  }

  /**
   * What the f-string of scraper.py:22 writes for a value: a string as it is,
   * a number in decimal, a boolean as `True` or `False`. Arrays and objects,
   * which Python would write as their `repr`, are rendered empty.
   */
  function Show(j: Json): string {
    match j
    case Str(s) => s
    case Int(i) => if i < 0 then "-" + Digits(-i) else Digits(i)
    case Bool(b) => if b then "True" else "False"
    case Null => "None"
    case _ => ""
  }

  /**
   * The canonical address of a post: derived only when both the code and the
   * username are truthy, and the empty string otherwise.
   */
  function Url(code: Json, username: Json): (u: string)
    ensures u != "" <==> Truthy(code) && Truthy(username)
    ensures Truthy(code) && Truthy(username) && code.Str? && username.Str? ==>
      u == UrlBase + username.s + "/post/" + code.s
  {
    if Truthy(code) && Truthy(username) then
      UrlBase + Show(username) + "/post/" + Show(code)
    else ""
  }

  /**
   * `parse_thread(item)`. The jmespath multiselect yields `None` for a null
   * item, and the following `result.get` raises; any other item normalises.
   */
  function ParseThread(item: Json): (r: Result<Post, Error>)
    ensures r.Err? <==> item == Null
    ensures r.Err? ==> r.error == NullItem
    ensures r.Ok? ==> (r.value.url != "" <==> Truthy(r.value.code) && Truthy(r.value.username))
  {
    if item == Null then Err(NullItem)
    else
      var code := Path(item, CodePath);
      var username := Path(item, UsernamePath);
      Ok(Post(
        Path(item, TextPath),
        Path(item, PublishedOnPath),
        code,
        username,
        Path(item, LikeCountPath),
        Url(code, username)))
  }

  /**
   * Each field is the value its path's chain of object bindings reaches from
   * the item, and is null exactly when no chain reaches a non-null value; the
   * five are resolved independently of one another.
   */
  lemma ParseThreadFields(item: Json, p: Post)
    requires ParseThread(item) == Ok(p)
    ensures forall v :: Reaches(item, TextPath, v) ==> p.text == v
    ensures p.text != Null ==> Reaches(item, TextPath, p.text)
    ensures forall v :: Reaches(item, PublishedOnPath, v) ==> p.publishedOn == v
    ensures p.publishedOn != Null ==> Reaches(item, PublishedOnPath, p.publishedOn)
    ensures forall v :: Reaches(item, CodePath, v) ==> p.code == v
    ensures p.code != Null ==> Reaches(item, CodePath, p.code)
    ensures forall v :: Reaches(item, UsernamePath, v) ==> p.username == v
    ensures p.username != Null ==> Reaches(item, UsernamePath, p.username)
    ensures forall v :: Reaches(item, LikeCountPath, v) ==> p.likeCount == v
    ensures p.likeCount != Null ==> Reaches(item, LikeCountPath, p.likeCount)
  {
    forall keys | keys in [TextPath, PublishedOnPath, CodePath, UsernamePath, LikeCountPath]
      ensures forall v :: Reaches(item, keys, v) ==> Path(item, keys) == v
      ensures Path(item, keys) != Null ==> Reaches(item, keys, Path(item, keys))
    {
      forall v ensures Reaches(item, keys, v) ==> Path(item, keys) == v {
        PathReaches(item, keys, v);
      }
      PathReaches(item, keys, Null);
    }
  }

  /** The post with every field unresolved. */
  const EmptyPost: Post := Post(Null, Null, Null, Null, Null, "")

  /**
   * An item without a `post` object (a string, a list, an object lacking the
   * key, or binding it to a non-object) normalises to the all-null post rather
   * than raising.
   */
  lemma ParseWithoutPost(item: Json)
    requires item != Null
    requires !Field(item, "post").Obj?
    ensures ParseThread(item) == Ok(EmptyPost)
  {
    var paths := [TextPath, PublishedOnPath, CodePath, UsernamePath, LikeCountPath];
    forall p | p in paths
      ensures Path(item, p) == Null
    {
      assert p[..1] == ["post"];
      PathBlocked(item, p, 1);
    }
  }
}
