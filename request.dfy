/**
 * What the `/playlist` endpoint derives from its query before merging: the
 * list of playlist definitions in `d`, and the base URL the rewritten links
 * point back to.
 *
 * Line numbers refer to `mediaflow_proxy/routes/playlist_builder.py`,
 * function `proxy_handler`.
 */
module Request {
  import opened Wrappers
  import opened PyStr
  import opened Rewriter

  /** Lines 185-188: the `;`-separated definitions of a non-empty `d`; an empty
      `d` is refused. */
  function Definitions(d: string): (r: Option<seq<string>>)
    ensures r.None? <==> d == []
    ensures r.Some? ==> |r.value| >= 1 && Join(r.value, ';') == d
    ensures r.Some? ==> forall i :: 0 <= i < |r.value| ==> ';' !in r.value[i]
  {
    if d == [] then None
    else
      JoinSplit(d, ';');
      Some(Split(d, ';'))
  }

  /** Lines 191-198, as written: the request's base URL without trailing `/`,
      unless the first definition's text before `&` holds a `:`, does not
      start with `http`, and yet its text before the last `:` does. */
  function BaseUrl(requestBase: string, definitions: seq<string>): string {
    var base := RStripChar(requestBase, '/');
    if |definitions| > 0 && '&' in definitions[0] then
      var first := Before(definitions[0], '&');
      if ':' in first && !StartsWith(first, "http") then
        var basePart := RSplitHead(first, ':');
        if StartsWith(basePart, "http") then basePart else base
      else base
    else base
  }

  /** Lines 194 and 197 cannot both hold: the text before the last `:` is a
      prefix of the whole, so it starts with `http` only if the whole does. */
  lemma OverrideUnreachable(first: string)
    ensures StartsWith(RSplitHead(first, ':'), "http") ==> StartsWith(first, "http")
  {
    var basePart := RSplitHead(first, ':');
    if StartsWith(basePart, "http") {
      assert first[..|basePart|] == basePart;
      assert first[..4] == basePart[..4];
    }
  }

  /** So the base URL is always the request's own, without trailing `/`. */
  lemma BaseUrlIsRequestBase(requestBase: string, definitions: seq<string>)
    ensures BaseUrl(requestBase, definitions) == RStripChar(requestBase, '/')
  {
    if |definitions| > 0 && '&' in definitions[0] {
      OverrideUnreachable(Before(definitions[0], '&'));
    }
  }

  /** A request whose base URL starts with `http` gives the rewriter a plain
      base: dropping trailing `/` keeps the `http` prefix, since `p` is not
      `/`. So the single-header guarantee of the merge applies to it. */
  lemma RequestBaseIsPlain(requestBase: string, definitions: seq<string>)
    requires StartsWith(requestBase, "http")
    ensures PlainBase(BaseUrl(requestBase, definitions))
  {
    BaseUrlIsRequestBase(requestBase, definitions);
    var b := RStripChar(requestBase, '/');
    assert requestBase[3] == 'p';
    assert |b| >= 4;
    assert b[..4] == requestBase[..4];
    HttpBaseIsPlain(b);
  }
}
