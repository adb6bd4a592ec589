/**
 * The headers a media URL carries to the proxy: one `&h_<name>=<value>` query
 * parameter per header, and how those parameters read back.
 *
 * Line numbers refer to `mediaflow_proxy/routes/playlist_builder.py`,
 * function `rewrite_m3u_links_streaming`.
 */
module QueryParams {
  import opened Wrappers
  import opened PyStr
  import opened Percent
  import opened HeaderMap

  /** `h_<name>=<value>`, the name percent-encoded once and the value twice (line 95). */
  function ParamBody(e: Entry): string {
    "h_" + Quote(e.0) + "=" + Quote(Quote(e.1))
  }

  /** One header as an appended query parameter. */
  function HeaderParam(e: Entry): string {
    "&" + ParamBody(e)
  }

  /** Line 95: the parameters of all headers, in dictionary order. They are
      empty exactly when there are no headers, so appending them only when
      the dictionary is not empty (line 94) changes nothing. */
  function HeaderQuery(h: seq<Entry>): (q: string)
    ensures q == [] <==> h == []
  {
    if h == [] then "" else HeaderParam(h[0]) + HeaderQuery(h[1..])
  }

  /** `h_<name>=<value>` read back: the name decoded once, the value twice. */
  function DecodeParam(p: string): Option<Entry> {
    if StartsWith(p, "h_") && '=' in p[2..] then
      Some((Unquote(Before(p[2..], '=')), Unquote(Unquote(After(p[2..], '=')))))
    else None
  }

  /** How a receiver reads appended `&h_...` parameters back into headers:
      each `&` opens a parameter that runs to the next `&` or the end. */
  function DecodeHeaderQuery(q: string): Option<seq<Entry>>
    decreases |q|
  {
    if q == [] then Some([])
    else if q[0] != '&' then None
    else
      var r := q[1..];
      var n := if '&' in r then IndexOf(r, '&') else |r|;
      match (DecodeParam(r[..n]), DecodeHeaderQuery(r[n..]))
      case (Some(e), Some(es)) => Some([e] + es)
      case _ => None
  }

  /** The parameters are empty or start with `&`. */
  lemma HeaderQueryStart(h: seq<Entry>)
    ensures HeaderQuery(h) == [] || HeaderQuery(h)[0] == '&'
  {
  }

  lemma QueryCons(h: seq<Entry>)
    requires h != []
    ensures HeaderQuery(h) == ['&'] + (ParamBody(h[0]) + HeaderQuery(h[1..]))
  {
  }

  /** A parameter without `&` followed by more parameters is cut exactly at its end. */
  lemma CutParam(p: string, t: string)
    requires '&' !in p
    requires t == [] || t[0] == '&'
    ensures var r := p + t;
      (if '&' in r then IndexOf(r, '&') else |r|) == |p| && r[..|p|] == p && r[|p|..] == t
  {
    var r := p + t;
    assert r[..|p|] == p && r[|p|..] == t;
    if t != [] {
      assert r[|p|] == '&';
    }
  }

  /** Percent-encoded text has no `&` and no `=`. */
  lemma QuotedHasNoDelimiters(w: string)
    requires forall i :: 0 <= i < |w| ==> IsQuotedChar(w[i])
    ensures '&' !in w && '=' !in w
  {
  }

  /** `h_<k>=<v>` splits back into `k` and `v` when `k` has no `=`. */
  lemma ParamText(k: string, v: string)
    requires '=' !in k && '&' !in k && '&' !in v
    ensures var p := "h_" + k + "=" + v;
      '&' !in p && StartsWith(p, "h_") && '=' in p[2..]
      && Before(p[2..], '=') == k && After(p[2..], '=') == v
  {
    var p := "h_" + k + "=" + v;
    assert p[..2] == "h_" && p[2..] == k + ['='] + v;
    SplitAt(k, '=', v);
  }

  /** A header whose name and value hold only characters `quote` keeps (letters,
      digits, `_.-~` and `/`) is appended as it is: `User-Agent: Mozilla/5.0`
      becomes `&h_User-Agent=Mozilla/5.0`. */
  lemma SafeHeaderParam(e: Entry)
    requires forall i :: 0 <= i < |e.0| ==> IsSafeByte(e.0[i] as int)
    requires forall i :: 0 <= i < |e.1| ==> IsSafeByte(e.1[i] as int)
    ensures HeaderParam(e) == "&h_" + e.0 + "=" + e.1
  {
    QuoteSafeText(e.0);
    QuoteSafeText(e.1);
  }

  lemma ParamRoundTrip(e: Entry)
    requires IsAscii(e.0) && IsAscii(e.1)
    ensures '&' !in ParamBody(e)
    ensures DecodeParam(ParamBody(e)) == Some(e)
  {
    var qk := Quote(e.0);
    var qv := Quote(Quote(e.1));
    QuotedHasNoDelimiters(qk);
    QuotedHasNoDelimiters(qv);
    ParamText(qk, qv);
    UnquoteQuote(e.0);
    DoubleQuote(e.1);
  }

  /** The appended parameters carry exactly the gathered headers, in dictionary
      order: for ASCII names and values, reading them back (splitting at `&`
      and undoing the single and the double percent-encoding) gives the
      headers again. */
  lemma {:induction false} HeaderQueryRoundTrip(h: seq<Entry>)
    requires forall i :: 0 <= i < |h| ==> IsAscii(h[i].0) && IsAscii(h[i].1)
    ensures DecodeHeaderQuery(HeaderQuery(h)) == Some(h)
    decreases |h|
  {
    if h != [] {
      var p := ParamBody(h[0]);
      var t := HeaderQuery(h[1..]);
      QueryCons(h);
      ParamRoundTrip(h[0]);
      HeaderQueryStart(h[1..]);
      HeaderQueryRoundTrip(h[1..]);
      DecodeCons(p, t, h[0], h[1..]);
      assert [h[0]] + h[1..] == h;
    }
  }

  /** Decoding one parameter followed by more parameters. */
  lemma DecodeCons(p: string, t: string, e: Entry, es: seq<Entry>)
    requires '&' !in p && (t == [] || t[0] == '&')
    requires DecodeParam(p) == Some(e) && DecodeHeaderQuery(t) == Some(es)
    ensures DecodeHeaderQuery(['&'] + (p + t)) == Some([e] + es)
  {
    var q := ['&'] + (p + t);
    assert q[1..] == p + t;
    CutParam(p, t);
  }
}
