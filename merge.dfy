/**
 * Merging several playlists into one: each definition names a source URL,
 * each fetch either failed or gave the playlist's lines, and the rewritten
 * playlists are emitted one after the other in definition order, with a
 * comment line for each failed fetch. Once some playlist has yielded a line,
 * every later playlist loses its first line when that line is an `#EXTM3U`
 * header.
 *
 * Line numbers refer to `mediaflow_proxy/routes/playlist_builder.py`,
 * function `async_generate_combined_playlist`.
 */
module Merge {
  import opened Wrappers
  import opened PyStr
  import opened Rewriter
  import opened Fetch
  import opened HeaderMap
  import opened Directives
  import opened QueryParams

  /** What fetching one playlist gave: its lines, or the text of the error. */
  type Fetched = Result<seq<string>, string>

  /** Lines 134-138: the URL a definition names, the text after its first `&`,
      or the whole definition when it has none. */
  function SourceUrl(definition: string): (url: string)
    ensures '&' !in definition ==> url == definition
    ensures '&' in definition ==>
      '&' !in Before(definition, '&') && definition == Before(definition, '&') + "&" + url
  {
    if '&' in definition then
      var i := IndexOf(definition, '&');
      assert definition == definition[..i] + "&" + definition[i + 1..];
      After(definition, '&')
    else definition
  }

  /** A definition `name&url` whose name has no `&` names `url`, whatever `url` holds. */
  lemma SourceUrlOf(name: string, url: string)
    requires '&' !in name
    ensures SourceUrl(name + "&" + url) == url
  {
    SplitAt(name, '&', url);
  }

  /** Lines 132-139: the source URL of every definition, in order. */
  method SourceUrls(definitions: seq<string>) returns (playlistUrls: seq<string>)
    ensures |playlistUrls| == |definitions|
    ensures forall i :: 0 <= i < |definitions| ==> playlistUrls[i] == SourceUrl(definitions[i])
  {
    playlistUrls := [];
    for i := 0 to |definitions|
      invariant |playlistUrls| == i
      invariant forall k :: 0 <= k < i ==> playlistUrls[k] == SourceUrl(definitions[k])
    {
      var definition := definitions[i];
      var playlistUrl;
      if '&' in definition {
        playlistUrl := After(definition, '&');
      } else {
        playlistUrl := definition;
      }
      playlistUrls := playlistUrls + [playlistUrl];
    }
  }

  /** Line 147: the line a failed fetch contributes. */
  function ErrorLine(url: string, error: string): string {
    "# ERROR processing playlist " + url + ": " + error + "\n"
  }

  /** Line 156: a line that strips to a `#EXTM3U` header. */
  predicate IsExtM3U(line: string) {
    StartsWith(Strip(line), "#EXTM3U")
  }

  /** An error line is never taken for a playlist header. */
  lemma ErrorLineIsNotHeader(url: string, error: string)
    ensures !IsExtM3U(ErrorLine(url, error))
  {
    var line := ErrorLine(url, error);
    ErrorLineText(url, error);
    StripKeepsPrefix(line, "#EXTM3U");
  }

  lemma ErrorLineText(url: string, error: string)
    ensures var line := ErrorLine(url, error);
      line != [] && line[0] == '#' && !StartsWith(line, "#EXTM3U")
  {
    var line := ErrorLine(url, error);
    assert line[0] == '#' && line[1] == ' ';
    assert "#EXTM3U"[1] == 'E';
  }

  /** Lines 158-166: what a playlist's rewritten lines contribute. Before any
      header has been handled all of them; afterwards all but a first line
      that is an `#EXTM3U` header. */
  function Kept(handled: bool, rewritten: seq<string>): seq<string> {
    if handled && rewritten != [] && IsExtM3U(rewritten[0]) then rewritten[1..] else rewritten
  }

  /** What one fetch outcome contributes. */
  function Piece(url: string, fetched: Fetched, handled: bool): seq<string> {
    match fetched
    case Failure(error) => [ErrorLine(url, error)]
    case Success(rewritten) => Kept(handled, rewritten)
  }

  /** Lines 161 and 168-169: the first-header flag after one fetch outcome. A
      playlist that yields at least one line sets it; a failed fetch or an
      empty playlist leaves it as it was. */
  function Handles(fetched: Fetched, handled: bool): bool {
    handled || (fetched.Success? && fetched.value != [])
  }

  /** The first-header flag after a run of fetch outcomes. */
  function HandledAfter(outs: seq<Fetched>, handled: bool): bool
    decreases |outs|
  {
    if outs == [] then handled else HandledAfter(outs[1..], Handles(outs[0], handled))
  }

  /** Lines 144-169: the merged output for already rewritten playlists, the
      `i`-th named by `urls[i]`, starting from the given flag. */
  function Merged(urls: seq<string>, outs: seq<Fetched>, handled: bool): seq<string>
    requires |urls| == |outs|
  {
    Chain(Piece, urls, outs, handled)
  }

  /** The shape of the merge loop whatever each playlist contributes: the
      contributions in order, each computed from the flag the ones before it
      left. */
  function Chain(piece: (string, Fetched, bool) -> seq<string>, urls: seq<string>, outs: seq<Fetched>,
                 handled: bool): seq<string>
    requires |urls| == |outs|
    decreases |outs|
  {
    if outs == [] then []
    else piece(urls[0], outs[0], handled) + Chain(piece, urls[1..], outs[1..], Handles(outs[0], handled))
  }

  /** Every playlist rewritten on its own. */
  function RewriteAll(cfg: Config, results: seq<Fetched>): (outs: seq<Fetched>)
    ensures |outs| == |results|
  {
    seq(|results|, i requires 0 <= i < |results| => RewriteOne(cfg, results[i]))
  }

  function UrlsOf(definitions: seq<string>): (urls: seq<string>)
    ensures |urls| == |definitions|
  {
    seq(|definitions|, i requires 0 <= i < |definitions| => SourceUrl(definitions[i]))
  }

  /** The whole merged playlist for the given definitions and fetch results. */
  function Combined(cfg: Config, definitions: seq<string>, results: seq<Fetched>): seq<string>
    requires |results| == |definitions|
  {
    Merged(UrlsOf(definitions), RewriteAll(cfg, results), false)
  }

  // ---------------------------------------------------------------------------
  // The flag

  /** The flag is set after a run exactly when it was set before or some
      playlist of the run yielded a line. */
  lemma {:induction false} HandledAfterIff(outs: seq<Fetched>, handled: bool)
    ensures HandledAfter(outs, handled) <==>
      handled || exists i :: 0 <= i < |outs| && outs[i].Success? && outs[i].value != []
    decreases |outs|
  {
    if outs != [] {
      HandledAfterIff(outs[1..], Handles(outs[0], handled));
      if exists i :: 0 <= i < |outs| - 1 && outs[1..][i].Success? && outs[1..][i].value != [] {
        var i :| 0 <= i < |outs| - 1 && outs[1..][i].Success? && outs[1..][i].value != [];
        assert outs[i + 1] == outs[1..][i];
      }
      if exists i :: 0 <= i < |outs| && outs[i].Success? && outs[i].value != [] {
        var i :| 0 <= i < |outs| && outs[i].Success? && outs[i].value != [];
        if i > 0 {
          assert outs[1..][i - 1] == outs[i];
        }
      }
    }
  }

  lemma {:induction false} HandledAfterSplit(outs: seq<Fetched>, handled: bool, k: nat)
    requires k <= |outs|
    ensures HandledAfter(outs, handled) == HandledAfter(outs[k..], HandledAfter(outs[..k], handled))
    decreases k
  {
    if k > 0 {
      Slices(outs, k);
      HandledAfterSplit(outs[1..], Handles(outs[0], handled), k - 1);
    }
  }

  // ---------------------------------------------------------------------------
  // Order

  /** The merged output is the output for the first `k` playlists followed by
      the output for the rest, which starts from the flag the first `k` left. */
  lemma MergedSplit(urls: seq<string>, outs: seq<Fetched>, handled: bool, k: nat)
    requires |urls| == |outs| && k <= |outs|
    ensures Merged(urls, outs, handled) ==
      Merged(urls[..k], outs[..k], handled) + Merged(urls[k..], outs[k..], HandledAfter(outs[..k], handled))
  {
    ChainSplit(Piece, urls, outs, handled, k);
  }

  lemma {:induction false} ChainSplit(piece: (string, Fetched, bool) -> seq<string>, urls: seq<string>,
                                      outs: seq<Fetched>, handled: bool, k: nat)
    requires |urls| == |outs| && k <= |outs|
    ensures Chain(piece, urls, outs, handled) ==
      Chain(piece, urls[..k], outs[..k], handled)
      + Chain(piece, urls[k..], outs[k..], HandledAfter(outs[..k], handled))
    decreases k
  {
    if k > 0 {
      Slices(urls, k);
      Slices(outs, k);
      ChainSplit(piece, urls[1..], outs[1..], Handles(outs[0], handled), k - 1);
    }
  }

  lemma Slices<T>(s: seq<T>, k: nat)
    requires 0 < k <= |s|
    ensures s[..k] != [] && s[..k][0] == s[0]
    ensures s[1..][k - 1..] == s[k..] && s[..k][1..] == s[1..][..k - 1]
  {
  }

  lemma MergedFirst(urls: seq<string>, outs: seq<Fetched>, handled: bool)
    requires |urls| == |outs| && outs != []
    ensures Merged(urls, outs, handled) ==
      Piece(urls[0], outs[0], handled) + Merged(urls[1..], outs[1..], Handles(outs[0], handled))
  {
  }

  lemma MergedCons(urls: seq<string>, outs: seq<Fetched>, handled: bool, i: nat)
    requires |urls| == |outs| && i < |outs|
    ensures Merged(urls[i..], outs[i..], handled) ==
      Piece(urls[i], outs[i], handled) + Merged(urls[i + 1..], outs[i + 1..], Handles(outs[i], handled))
  {
    assert urls[i..][1..] == urls[i + 1..] && outs[i..][1..] == outs[i + 1..];
  }

  /** Playlist `i` contributes its piece between the output of the playlists
      before it and that of the playlists after it. */
  lemma MergedAt(urls: seq<string>, outs: seq<Fetched>, handled: bool, i: nat)
    requires |urls| == |outs| && i < |outs|
    ensures var before := HandledAfter(outs[..i], handled);
      Merged(urls, outs, handled) ==
        Merged(urls[..i], outs[..i], handled) + Piece(urls[i], outs[i], before)
        + Merged(urls[i + 1..], outs[i + 1..], Handles(outs[i], before))
  {
    MergedSplit(urls, outs, handled, i);
    MergedCons(urls, outs, HandledAfter(outs[..i], handled), i);
  }

  /** A failed fetch contributes exactly its error line and leaves the flag alone. */
  lemma FailureContributes(urls: seq<string>, outs: seq<Fetched>, handled: bool, i: nat)
    requires |urls| == |outs| && i < |outs| && outs[i].Failure?
    ensures var before := HandledAfter(outs[..i], handled);
      Merged(urls, outs, handled) ==
        Merged(urls[..i], outs[..i], handled) + [ErrorLine(urls[i], outs[i].error)]
        + Merged(urls[i + 1..], outs[i + 1..], before)
  {
    MergedAt(urls, outs, handled, i);
  }

  /** Once some earlier playlist has yielded a line, a playlist loses its first
      line exactly when that line is an `#EXTM3U` header, and keeps all others. */
  lemma LaterPlaylist(urls: seq<string>, outs: seq<Fetched>, handled: bool, i: nat)
    requires |urls| == |outs| && i < |outs| && outs[i].Success?
    requires HandledAfter(outs[..i], handled)
    ensures var r := outs[i].value;
      Merged(urls, outs, handled) ==
        Merged(urls[..i], outs[..i], handled)
        + (if r != [] && IsExtM3U(r[0]) then r[1..] else r)
        + Merged(urls[i + 1..], outs[i + 1..], true)
  {
    MergedAt(urls, outs, handled, i);
  }

  // ---------------------------------------------------------------------------
  // The first playlist

  /** The error lines of the failed fetches of a run, in order. */
  function ErrorLines(urls: seq<string>, outs: seq<Fetched>): seq<string>
    requires |urls| == |outs|
    decreases |outs|
  {
    if outs == [] then []
    else
      var first := if outs[0].Failure? then [ErrorLine(urls[0], outs[0].error)] else [];
      first + ErrorLines(urls[1..], outs[1..])
  }

  /** A run in which no playlist yields a line leaves the flag unset and
      contributes only its error lines. */
  lemma {:induction false} NothingYielded(urls: seq<string>, outs: seq<Fetched>)
    requires |urls| == |outs|
    requires forall k :: 0 <= k < |outs| ==> outs[k].Failure? || outs[k].value == []
    ensures Merged(urls, outs, false) == ErrorLines(urls, outs)
    ensures !HandledAfter(outs, false)
    decreases |outs|
  {
    if outs != [] {
      assert forall k :: 0 <= k < |outs| - 1 ==> outs[1..][k] == outs[k + 1];
      NothingYielded(urls[1..], outs[1..]);
    }
  }

  /** The first playlist that yields a line is emitted in full, after only the
      error lines of the fetches before it; it sets the flag. */
  lemma FirstInFull(urls: seq<string>, outs: seq<Fetched>, i: nat)
    requires |urls| == |outs| && i < |outs|
    requires forall k :: 0 <= k < i ==> outs[k].Failure? || outs[k].value == []
    requires outs[i].Success? && outs[i].value != []
    ensures Merged(urls, outs, false) ==
      ErrorLines(urls[..i], outs[..i]) + outs[i].value + Merged(urls[i + 1..], outs[i + 1..], true)
  {
    MergedAt(urls, outs, false, i);
    NothingYielded(urls[..i], outs[..i]);
  }

  // ---------------------------------------------------------------------------
  // One header

  function CountHeaders(lines: seq<string>): nat
    decreases |lines|
  {
    if lines == [] then 0 else (if IsExtM3U(lines[0]) then 1 else 0) + CountHeaders(lines[1..])
  }

  lemma {:induction false} CountHeadersAppend(a: seq<string>, b: seq<string>)
    ensures CountHeaders(a + b) == CountHeaders(a) + CountHeaders(b)
    decreases |a|
  {
    if a != [] {
      assert (a + b)[0] == a[0] && (a + b)[1..] == a[1..] + b;
      CountHeadersAppend(a[1..], b);
    } else {
      assert a + b == b;
    }
  }

  lemma {:induction false} NoHeaders(lines: seq<string>)
    requires forall j :: 0 <= j < |lines| ==> !IsExtM3U(lines[j])
    ensures CountHeaders(lines) == 0
    decreases |lines|
  {
    if lines != [] {
      assert forall j :: 0 <= j < |lines| - 1 ==> lines[1..][j] == lines[j + 1];
      NoHeaders(lines[1..]);
    }
  }

  /** A playlist that, if it has lines, starts with its one `#EXTM3U` header. */
  predicate HeaderFirst(lines: seq<string>) {
    lines != [] ==> IsExtM3U(lines[0]) && forall j :: 1 <= j < |lines| ==> !IsExtM3U(lines[j])
  }

  lemma PieceHeaders(url: string, fetched: Fetched, handled: bool)
    requires fetched.Success? ==> HeaderFirst(fetched.value)
    ensures CountHeaders(Piece(url, fetched, handled)) ==
      if !handled && fetched.Success? && fetched.value != [] then 1 else 0
  {
    match fetched
    case Failure(error) =>
      ErrorLineIsNotHeader(url, error);
      assert [ErrorLine(url, error)][1..] == [];
    case Success(r) =>
      if r != [] {
        var tail := r[1..];
        assert forall j :: 0 <= j < |tail| ==> tail[j] == r[j + 1];
        NoHeaders(tail);
      }
  }

  /** When every playlist starts with its one header, the merged output holds
      exactly one header if some playlist yields a line before the flag is
      set, and none otherwise. */
  lemma {:induction false} SingleHeader(urls: seq<string>, outs: seq<Fetched>, handled: bool)
    requires |urls| == |outs|
    requires forall i :: 0 <= i < |outs| && outs[i].Success? ==> HeaderFirst(outs[i].value)
    ensures CountHeaders(Merged(urls, outs, handled)) ==
      if !handled && HandledAfter(outs, handled) then 1 else 0
    decreases |outs|
  {
    if outs != [] {
      var h := Handles(outs[0], handled);
      MergedFirst(urls, outs, handled);
      PieceHeaders(urls[0], outs[0], handled);
      CountHeadersAppend(Piece(urls[0], outs[0], handled), Merged(urls[1..], outs[1..], h));
      assert forall i :: 0 <= i < |outs| - 1 ==> outs[1..][i] == outs[i + 1];
      SingleHeader(urls[1..], outs[1..], h);
      if h {
        HandledStays(outs[1..]);
      }
    }
  }

  lemma {:induction false} HandledStays(outs: seq<Fetched>)
    ensures HandledAfter(outs, true)
    decreases |outs|
  {
    if outs != [] {
      HandledStays(outs[1..]);
    }
  }

  /** And when every fetch succeeded and playlist `i` has lines, that one
      header is the first line. */
  lemma HeaderComesFirst(urls: seq<string>, outs: seq<Fetched>, i: nat)
    requires |urls| == |outs| && i < |outs| && outs[i].Success? && outs[i].value != []
    requires forall k :: 0 <= k < |outs| ==> outs[k].Success? && HeaderFirst(outs[k].value)
    ensures Merged(urls, outs, false) != [] && IsExtM3U(Merged(urls, outs, false)[0])
  {
    var j := FirstYield(outs, i, 0);
    var r := outs[j].value;
    FirstInFull(urls, outs, j);
    NoErrors(urls[..j], outs[..j]);
    assert HeaderFirst(r);
    assert (r + Merged(urls[j + 1..], outs[j + 1..], true))[0] == r[0];
  }

  /** The first playlist from `start` on that yields a line, when playlist `i`
      does and none before `start` does. */
  lemma {:induction false} FirstYield(outs: seq<Fetched>, i: nat, start: nat) returns (j: nat)
    requires start <= i < |outs| && outs[i].Success? && outs[i].value != []
    requires forall k :: 0 <= k < start ==> outs[k].Failure? || outs[k].value == []
    ensures j <= i && outs[j].Success? && outs[j].value != []
    ensures forall k :: 0 <= k < j ==> outs[k].Failure? || outs[k].value == []
    decreases i - start
  {
    if outs[start].Success? && outs[start].value != [] {
      j := start;
    } else {
      j := FirstYield(outs, i, start + 1);
    }
  }

  /** Fetches that all succeeded leave no error lines. */
  lemma {:induction false} NoErrors(urls: seq<string>, outs: seq<Fetched>)
    requires |urls| == |outs|
    requires forall k :: 0 <= k < |outs| ==> outs[k].Success?
    ensures ErrorLines(urls, outs) == []
    decreases |outs|
  {
    if outs != [] {
      assert forall k :: 0 <= k < |outs| - 1 ==> outs[1..][k] == outs[k + 1];
      NoErrors(urls[1..], outs[1..]);
    }
  }

  /** The rewriter yields a header line untouched, so a playlist fetched with a
      header first is rewritten with the same header first. */
  lemma HeaderRewrittenAsIs(cfg: Config, lines: seq<string>)
    requires lines != [] && IsExtM3U(lines[0])
    ensures Rewrite(cfg, lines) != [] && Rewrite(cfg, lines)[0] == lines[0]
  {
    HeaderIsNotMedia(lines[0]);
    RewriteAt(cfg, lines, 0);
    Passthrough(cfg, lines, 0);
  }

  /** A line that starts with neither whitespace nor `#` is no header. */
  lemma PlainIsNotHeader(line: string)
    requires PlainStart(line)
    ensures !IsExtM3U(line)
  {
    StripKeepsPrefix(line, "#EXTM3U");
  }

  /** Under a plain base the rewriter adds no header: a playlist fetched with
      its one header first is rewritten with its one header first. */
  lemma RewriteKeepsHeaderFirst(cfg: Config, lines: seq<string>)
    requires PlainBase(cfg.baseUrl) && HeaderFirst(lines)
    ensures HeaderFirst(Rewrite(cfg, lines))
  {
    if lines != [] {
      HeaderRewrittenAsIs(cfg, lines);
      var r := Rewrite(cfg, lines);
      forall j | 1 <= j < |r| ensures !IsExtM3U(r[j]) {
        RewriteAt(cfg, lines, j);
        if IsMediaUrl(Logical(lines[j])) {
          MediaOutputStart(cfg, HeadersAt(cfg, lines, j), lines[j]);
          PlainIsNotHeader(r[j]);
        } else {
          Passthrough(cfg, lines, j);
        }
      }
    }
  }

  /** Without the plain base the rewriter can make a header: a base that
      starts with `#EXTM3U` turns a media line into a header line. */
  lemma BaseMakesHeader(base: string, parse: JsonParser, h: Headers, line: string)
    requires StartsWith(base, "#EXTM3U")
    requires IsMediaUrl(Logical(line)) && !Contains(Logical(line), "pluto.tv")
    ensures IsExtM3U(Step(Config(base, None, parse), h, line).0)
  {
    var cfg := Config(base, None, parse);
    var t := Target(cfg, Logical(line));
    StepMedia(cfg, h, line);
    PrefixOfConcat(base, "/proxy/m3u?url=" + Logical(line), "#EXTM3U");
    assert t == base + ("/proxy/m3u?url=" + Logical(line));
    PrefixOfConcat(t, HeaderQuery(h) + "\n", "#EXTM3U");
    var out := t + (HeaderQuery(h) + "\n");
    assert Step(cfg, h, line).0 == out;
    assert out[..7][0] == out[0];
    StripKeepsPrefix(out, "#EXTM3U");
  }

  lemma PrefixOfConcat(a: string, b: string, p: string)
    requires StartsWith(a, p)
    ensures StartsWith(a + b, p)
  {
    assert (a + b)[..|p|] == a[..|p|];
  }

  /** A playlist yields a line exactly when its fetch gave lines. */
  lemma RewriteAllYields(cfg: Config, results: seq<Fetched>, i: nat)
    requires i < |results|
    ensures var o := RewriteAll(cfg, results)[i];
      (o.Success? && o.value != []) <==> (results[i].Success? && results[i].value != [])
  {
  }

  /** The merged playlist holds exactly one `#EXTM3U` header when some fetch
      gave lines and none otherwise, for fetched playlists that each start with
      their one header and a plain base URL. */
  lemma SingleHeaderCombined(cfg: Config, definitions: seq<string>, results: seq<Fetched>)
    requires |results| == |definitions| && PlainBase(cfg.baseUrl)
    requires forall i :: 0 <= i < |results| && results[i].Success? ==> HeaderFirst(results[i].value)
    ensures CountHeaders(Combined(cfg, definitions, results)) ==
      if exists i :: 0 <= i < |results| && results[i].Success? && results[i].value != [] then 1 else 0
  {
    var outs := RewriteAll(cfg, results);
    forall i | 0 <= i < |outs| && outs[i].Success? ensures HeaderFirst(outs[i].value) {
      RewriteKeepsHeaderFirst(cfg, results[i].value);
    }
    SingleHeader(UrlsOf(definitions), outs, false);
    HandledAfterIff(outs, false);
    forall i | 0 <= i < |results| {
      RewriteAllYields(cfg, results, i);
    }
  }

  /** When every fetch succeeded with a playlist whose first line is its
      header, and some fetch gave lines, the merged playlist starts with an
      `#EXTM3U` header, whatever the base URL. */
  lemma HeaderComesFirstCombined(cfg: Config, definitions: seq<string>, results: seq<Fetched>, i: nat)
    requires |results| == |definitions| && i < |results|
    requires results[i].Success? && results[i].value != []
    requires forall k :: 0 <= k < |results| ==>
      results[k].Success? && (results[k].value != [] ==> IsExtM3U(results[k].value[0]))
    ensures var c := Combined(cfg, definitions, results); c != [] && IsExtM3U(c[0])
  {
    var urls := UrlsOf(definitions);
    var outs := RewriteAll(cfg, results);
    RewriteAllYields(cfg, results, i);
    var j := FirstYield(outs, i, 0);
    RewriteAllYields(cfg, results, j);
    HeaderRewrittenAsIs(cfg, results[j].value);
    FirstInFull(urls, outs, j);
    NoErrors(urls[..j], outs[..j]);
    var r := outs[j].value;
    assert (r + Merged(urls[j + 1..], outs[j + 1..], true))[0] == r[0];
  }

  /** A download that gave at least one line yields at least one line, even
      when every line it gave is empty: an empty line is stored as `''`, and
      the rewriter echoes it. So such a playlist sets the first-header flag. */
  lemma StoredSetsFlag(cfg: Config, decoded: seq<string>, handled: bool)
    requires decoded != []
    ensures Handles(RewriteOne(cfg, Success(Stored(decoded))), handled)
    ensures forall k :: 0 <= k < |decoded| && decoded[k] == [] ==> Rewrite(cfg, Stored(decoded))[k] == []
  {
    var lines := Stored(decoded);
    forall k | 0 <= k < |decoded| && decoded[k] == [] ensures Rewrite(cfg, lines)[k] == [] {
      assert lines[k] == [];
      assert Logical(lines[k]) == [];
      Passthrough(cfg, lines, k);
    }
  }

  lemma HeaderIsNotMedia(line: string)
    requires IsExtM3U(line)
    ensures !IsMediaUrl(Logical(line))
  {
    StripAfterRStripNewline(line);
    StartsWithHash(Strip(line));
  }

  lemma StartsWithHash(s: string)
    requires StartsWith(s, "#EXTM3U")
    ensures s != [] && s[0] == '#'
  {
    assert s[..7][0] == s[0];
  }

  // ---------------------------------------------------------------------------
  // The merge loop

  lemma KeptSnoc(handled: bool, rewritten: seq<string>, j: nat)
    requires j < |rewritten|
    ensures Kept(handled, rewritten[..j + 1]) ==
      if handled && j == 0 && IsExtM3U(rewritten[0]) then [] else Kept(handled, rewritten[..j]) + [rewritten[j]]
  {
    var s := rewritten[..j + 1];
    assert s == rewritten[..j] + [rewritten[j]];
    if j > 0 {
      assert s[0] == rewritten[0] && rewritten[..j][0] == rewritten[0];
      assert s[1..] == rewritten[..j][1..] + [rewritten[j]];
    }
  }

  /** Lines 150-169 for one playlist: emits its rewritten lines under the
      header rule and updates the first-header flag. */
  method EmitSegment(output: seq<string>, handled: bool, rewritten: seq<string>)
    returns (output': seq<string>, handled': bool)
    ensures output' == output + Kept(handled, rewritten)
    ensures handled' == Handles(Success(rewritten), handled)
  {
    output', handled' := output, handled;
    var hadLines := false;
    var firstLine := true;
    for j := 0 to |rewritten|
      invariant hadLines == (j > 0) && firstLine == (j == 0)
      invariant handled ==> handled'
      invariant handled' && !handled ==> j > 0
      invariant output' == output + Kept(handled, rewritten[..j])
    {
      var line := rewritten[j];
      hadLines := true;
      var isExtm3u := IsExtM3U(line);
      KeptSnoc(handled, rewritten, j);
      if !handled' {
        output' := output' + [line];
        if isExtm3u {
          handled' := true;
        }
      } else if firstLine && isExtm3u {
      } else {
        output' := output' + [line];
      }
      firstLine := false;
    }
    assert rewritten[..|rewritten|] == rewritten;
    if hadLines && !handled' {
      handled' := true;
    }
  }

  /** One playlist rewritten on its own; a failure stays a failure. */
  function RewriteOne(cfg: Config, result: Fetched): Fetched {
    match result
    case Success(lines) => Success(Rewrite(cfg, lines))
    case Failure(error) => Failure(error)
  }

  /** Lines 146-169 for one fetch outcome: its error line, or its rewritten
      lines under the header rule. */
  method EmitPlaylist(cfg: Config, output: seq<string>, handled: bool, url: string, result: Fetched)
    returns (output': seq<string>, handled': bool)
    ensures output' == output + Piece(url, RewriteOne(cfg, result), handled)
    ensures handled' == Handles(RewriteOne(cfg, result), handled)
  {
    match result {
      case Failure(error) =>
        output', handled' := output + [ErrorLine(url, error)], handled;
      case Success(lines) =>
        var rewritten := RewriteLines(cfg, lines);
        output', handled' := EmitSegment(output, handled, rewritten);
    }
  }

  /** The merge loop's invariant survives one more playlist. */
  lemma MergeStep(urls: seq<string>, outs: seq<Fetched>, i: nat, output: seq<string>, handled: bool,
                  whole: seq<string>)
    requires |urls| == |outs| && i < |outs|
    requires output + Merged(urls[i..], outs[i..], handled) == whole
    ensures output + Piece(urls[i], outs[i], handled)
              + Merged(urls[i + 1..], outs[i + 1..], Handles(outs[i], handled)) == whole
  {
    MergedCons(urls, outs, handled, i);
  }

  /** Lines 129-169: the merged playlist, given every fetch's outcome in
      definition order. */
  method GenerateCombined(cfg: Config, definitions: seq<string>, results: seq<Fetched>)
    returns (output: seq<string>)
    requires |results| == |definitions|
    ensures output == Combined(cfg, definitions, results)
  {
    var playlistUrls := SourceUrls(definitions);
    ghost var urls := UrlsOf(definitions);
    assert playlistUrls == urls;
    ghost var outs := RewriteAll(cfg, results);
    ghost var whole := Merged(urls, outs, false);
    var handled := false;
    output := [];
    for idx := 0 to |definitions|
      invariant output + Merged(urls[idx..], outs[idx..], handled) == whole
    {
      assert outs[idx] == RewriteOne(cfg, results[idx]);
      MergeStep(urls, outs, idx, output, handled, whole);
      output, handled := EmitPlaylist(cfg, output, handled, playlistUrls[idx], results[idx]);
    }
    assert urls[|definitions|..] == [] && outs[|definitions|..] == [];
  }
}
