/**
 * The shapes the data layer hands to its HTTP client: a request description
 * (path below the configured base URL, method, JSON body, Authorization
 * header) and the cache tags that queries provide and mutations invalidate.
 */
module Http {
  import opened Js
  import opened Text

  datatype Method = GET | POST | PUT | PATCH | DELETE

  /** One call as issued: `authorization` is the value of the Authorization header, if set. */
  datatype Request = Request(url: string, verb: Method, body: Option<Json>, authorization: Option<string>)

  /** A request without body or explicit headers. */
  function Plain(url: string, verb: Method): Request
  {
    Request(url, verb, None, None)
  }

  /** A request carrying a JSON body. */
  function WithBody(url: string, verb: Method, body: Json): Request
  {
    Request(url, verb, Some(body), None)
  }

  /**
   * A cache tag: either a bare type name (`"User"`) or a type with an id
   * (`{ type: "Quizzes", id }`). In a provided tag `None` is a `null` or
   * `undefined` id (the views build ids with `_id || id`). In an invalidated
   * tag `None` is an `undefined` id; any other value is looked up by its
   * string form, so a `null` id is written `Some("null")`.
   */
  datatype Tag = TypeTag(tagType: string) | IdTag(tagType: string, id: Option<string>)

  /** The id every list query uses for its collection tag. */
  const ListId: string := "LIST"

  /** The collection tag of a tag type. */
  function ListTag(tagType: string): Tag
  {
    IdTag(tagType, Some(ListId))
  }

  /** The key RTK Query files providers without a usable id under. */
  const WithoutId: string := "__internal_without_id"

  /** The key a provided tag is filed under: its id, or `WithoutId` when the id is missing or empty
      (`id || '__internal_without_id'`). */
  function StoredId(prov: Tag): (k: string)
    ensures k != ""
    ensures prov.IdTag? && Truthy(prov.id) ==> k == prov.id.value
  {
    if prov.IdTag? && Truthy(prov.id) then prov.id.value else WithoutId
  }

  /** Invalidating `inv` drops a cached query that provided `prov` (`selectInvalidatedBy`): a tag without id
      hits every provider of its type; a tag with an id looks up the providers filed under that id. */
  predicate Hits(inv: Tag, prov: Tag)
  {
    prov.tagType == inv.tagType && (inv.TypeTag? || inv.id.None? || StoredId(prov) == inv.id.value)
  }

  /** A mutation with tags `invalidated` refetches a query that provided `provided`. */
  predicate Refetches(invalidated: seq<Tag>, provided: seq<Tag>)
  {
    exists i, j :: 0 <= i < |invalidated| && 0 <= j < |provided| && Hits(invalidated[i], provided[j])
  }

  /** Between two tags of one type with ids: a non-empty id hits the same id, the reserved key hits the
      providers without a usable id, and an empty id hits nothing. */
  lemma IdTagHits(t: string, k: string, p: Option<string>)
    ensures Hits(IdTag(t, Some(k)), IdTag(t, p)) <==> (k != "" && p == Some(k)) || (k == WithoutId && !Truthy(p))
    ensures Hits(IdTag(t, None), IdTag(t, p)) && Hits(TypeTag(t), IdTag(t, p))
  {
  }

  /** The rest of `s` after `prefix`, when `s` starts with it. */
  function AfterPrefix(prefix: string, s: string): (r: Option<string>)
    ensures r.Some? <==> prefix <= s
    ensures r.Some? ==> s == prefix + r.value
  {
    if prefix <= s then Some(s[|prefix|..]) else None
  }

  lemma AfterPrefixOf(prefix: string, x: string)
    ensures AfterPrefix(prefix, prefix + x) == Some(x)
  {
    assert prefix <= prefix + x;
  }

  /** The part of `s` between `prefix` and `suffix`, when `s` is long enough to hold both and has them. */
  function Between(prefix: string, suffix: string, s: string): (r: Option<string>)
    ensures r.Some? ==> s == prefix + r.value + suffix
  {
    if |prefix| + |suffix| <= |s| && prefix <= s && s[|s| - |suffix|..] == suffix then
      assert s == s[..|prefix|] + s[|prefix|..|s| - |suffix|] + s[|s| - |suffix|..];
      Some(s[|prefix|..|s| - |suffix|])
    else None
  }

  lemma BetweenOf(prefix: string, x: string, suffix: string)
    ensures Between(prefix, suffix, prefix + x + suffix) == Some(x)
  {
    var s := prefix + x + suffix;
    assert prefix <= s;
    assert s[|s| - |suffix|..] == suffix;
    assert s[|prefix|..|s| - |suffix|] == x;
  }

  /** A key or value that holds neither query-string separator. */
  predicate QueryToken(s: string)
  {
    '&' !in s && '=' !in s
  }

  /** `key=value` pieces joined by `&`, as `URLSearchParams.toString()` writes already-encoded pairs. */
  function FormatQuery(pairs: seq<(string, string)>): string
  {
    if |pairs| == 0 then ""
    else if |pairs| == 1 then pairs[0].0 + "=" + pairs[0].1
    else pairs[0].0 + "=" + pairs[0].1 + "&" + FormatQuery(pairs[1..])
  }

  /** One `key=value` piece; a piece without `=` has the empty value. */
  function ParsePair(piece: string): (string, string)
  {
    var kv := Split(piece, '=');
    (kv[0], if |kv| > 1 then kv[1] else "")
  }

  function ParsePieces(pieces: seq<string>): seq<(string, string)>
  {
    if |pieces| == 0 then []
    else (if pieces[0] == "" then [] else [ParsePair(pieces[0])]) + ParsePieces(pieces[1..])
  }

  /** The server's reading of a query string: the pieces between `&`, empty pieces skipped. */
  function ParseQuery(q: string): seq<(string, string)>
  {
    ParsePieces(Split(q, '&'))
  }

  lemma ParsePairOf(k: string, v: string)
    requires QueryToken(k) && QueryToken(v)
    ensures ParsePair(k + "=" + v) == (k, v)
    ensures '&' !in k + "=" + v && k + "=" + v != ""
  {
    assert k + "=" + v == k + ['='] + v;
    SplitAtFirst(k, '=', v);
    SplitNoSeparator(v, '=');
  }

  /** Pairs of tokens survive formatting and parsing unchanged, in order. */
  lemma {:induction false} ParseFormatQuery(pairs: seq<(string, string)>)
    requires forall i :: 0 <= i < |pairs| ==> QueryToken(pairs[i].0) && QueryToken(pairs[i].1)
    ensures ParseQuery(FormatQuery(pairs)) == pairs
  {
    if |pairs| == 0 {
      assert Split("", '&') == [""];
    } else {
      var piece := pairs[0].0 + "=" + pairs[0].1;
      ParsePairOf(pairs[0].0, pairs[0].1);
      if |pairs| == 1 {
        SplitNoSeparator(piece, '&');
        assert ParsePieces([piece]) == [ParsePair(piece)] + ParsePieces([]);
      } else {
        var tail := pairs[1..];
        assert forall i :: 0 <= i < |tail| ==> tail[i] == pairs[i + 1];
        var rest := FormatQuery(tail);
        assert FormatQuery(pairs) == piece + ['&'] + rest;
        SplitAtFirst(piece, '&', rest);
        var pieces := [piece] + Split(rest, '&');
        assert Split(FormatQuery(pairs), '&') == pieces;
        assert pieces[0] == piece && pieces[1..] == Split(rest, '&');
        assert ParsePieces(pieces) == [ParsePair(piece)] + ParsePieces(pieces[1..]);
        ParseFormatQuery(tail);
        assert ParseQuery(FormatQuery(pairs)) == [pairs[0]] + tail;
        assert [pairs[0]] + tail == pairs;
      }
    }
  }
}
