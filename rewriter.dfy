/**
 * The per-line playlist rewriter: one left-to-right pass that echoes tags and
 * ordinary lines, remembers the headers set by `#EXTVLCOPT` and `#EXTHTTP`,
 * and turns every media URL line into a proxied URL carrying those headers.
 *
 * Line numbers refer to `mediaflow_proxy/routes/playlist_builder.py`,
 * function `rewrite_m3u_links_streaming`.
 */
module Rewriter {
  import opened Wrappers
  import opened PyStr
  import opened Targets
  import opened QueryParams
  import opened HeaderMap
  import opened Directives
  import opened LineFold

  /** What a pass is given besides its lines: the proxy's own base URL, the
      optional API password, and the JSON parser behind `#EXTHTTP`. */
  datatype Config = Config(baseUrl: string, password: Option<string>, parse: JsonParser)

  /** The line without trailing line feeds and then stripped (lines 21-22 of
      `rewrite_m3u_links_streaming`). Removing the line feeds first changes
      nothing: the result is the stripped line, with no whitespace at
      either end. */
  function Logical(line: string): (logical: string)
    ensures logical == Strip(line)
    ensures logical != [] ==> !IsSpace(logical[0]) && !IsSpace(logical[|logical| - 1])
  {
    StripAfterRStripNewline(line);
    Strip(RStripChar(line, '\n'))
  }

  predicate IsVlcOptTag(logical: string) {
    StartsWith(logical, "#EXTVLCOPT:")
  }

  predicate IsExtHttpTag(logical: string) {
    StartsWith(logical, "#EXTHTTP:")
  }

  predicate IsTag(logical: string) {
    IsVlcOptTag(logical) || IsExtHttpTag(logical)
  }

  /** Lines 61-62: the lines that get rewritten. */
  predicate IsMediaUrl(logical: string) {
    logical != [] && logical[0] != '#' && (Contains(logical, "http://") || Contains(logical, "https://"))
  }

  function Target(cfg: Config, url: string): string {
    match cfg.password
    case Some(password) => PasswordTarget(cfg.baseUrl, password, url)
    case None => OpenTarget(cfg.baseUrl, url)
  }

  /** A pluto.tv URL is never wrapped in a proxy URL, with or without a password. */
  lemma PlutoUnchanged(cfg: Config, url: string)
    requires Contains(url, "pluto.tv")
    ensures Target(cfg, url) == url
  {
  }

  /** Without a password every other URL becomes `{base}/proxy/m3u?url={url}`. */
  lemma OpenTargetWraps(cfg: Config, url: string)
    requires cfg.password.None? && !Contains(url, "pluto.tv")
    ensures Target(cfg, url) == cfg.baseUrl + "/proxy/m3u?url=" + url
  {
  }


  /** Text whose first character is neither whitespace nor `#`. */
  predicate PlainStart(s: string) {
    s != [] && !IsSpace(s[0]) && s[0] != '#'
  }

  /** A base URL that cannot make a proxied line start with whitespace or `#`:
      it is empty or plain at its start. */
  predicate PlainBase(base: string) {
    base == [] || PlainStart(base)
  }

  /** Every `http...` base URL, as the request gives it, is such a base. */
  lemma HttpBaseIsPlain(base: string)
    requires StartsWith(base, "http")
    ensures PlainBase(base)
  {
    assert base[..4][0] == base[0];
  }

  /** A proxy URL built under a plain base starts plain: with the base's first
      character, or with the `/` of its path when the base is empty. */
  lemma BuildStart(t: Template, base: string, password: string, url: string)
    requires t != Unchanged
    ensures base != [] ==> Build(t, base, password, url)[0] == base[0]
    ensures base == [] ==> Build(t, base, password, url)[0] == '/'
    ensures PlainBase(base) ==> PlainStart(Build(t, base, password, url))
  {
    var r := Build(t, base, password, url);
    if base == [] {
      match t
      case HlsManifest => assert r[0] == "/proxy/hls/manifest.m3u8?api_password="[0];
      case VixCloud => assert r[0] == "/extractor/video?host=VixCloud"[0];
      case MpdManifest => assert r[0] == "/proxy/mpd/manifest.m3u8?api_password="[0];
    } else {
      assert r[0] == base[0];
    }
  }

  /** The target of a URL that starts plain starts plain too, under a plain base. */
  lemma TargetStart(cfg: Config, url: string)
    requires PlainStart(url) && PlainBase(cfg.baseUrl)
    ensures PlainStart(Target(cfg, url))
  {
    var b := cfg.baseUrl;
    match cfg.password
    case Some(p) =>
      if Contains(url, "pluto.tv") {
      } else if Contains(url, "vavoo.to") {
        BuildStart(HlsManifest, b, p, url);
      } else if Contains(url, "vixsrc.to") {
        BuildStart(VixCloud, b, p, url);
      } else if Contains(url, ".m3u8") {
        BuildStart(HlsManifest, b, p, url);
      } else if Contains(url, ".mpd") {
        BuildStart(MpdManifest, b, p, url);
      } else if Contains(url, ".php") {
        BuildStart(HlsManifest, b, p, url);
      }
    case None =>
      if !Contains(url, "pluto.tv") {
        var r := Target(cfg, url);
        assert r[0] == if b == [] then "/proxy/m3u?url="[0] else b[0];
      }
  }

  // ---------------------------------------------------------------------
  // One line, and the whole pass

  /** The text after an `#EXTHTTP:` tag, as the first-colon split gives it. */
  lemma ExtHttpPayload(logical: string)
    requires IsExtHttpTag(logical)
    ensures !IsVlcOptTag(logical) && ':' in logical && After(logical, ':') == logical[9..]
  {
    assert logical[..9] == "#EXTHTTP:";
    assert logical[4] != "#EXTVLCOPT:"[4];
    assert logical == "#EXTHTTP" + [':'] + logical[9..];
    SplitAt("#EXTHTTP", ':', logical[9..]);
  }

  /** The text after an `#EXTVLCOPT:` tag, as the first-colon split gives it. */
  lemma VlcOptPayload(logical: string)
    requires IsVlcOptTag(logical)
    ensures ':' in logical && After(logical, ':') == logical[11..]
  {
    assert logical[..11] == "#EXTVLCOPT:";
    assert logical == "#EXTVLCOPT" + [':'] + logical[11..];
    SplitAt("#EXTVLCOPT", ':', logical[11..]);
  }

  /** Lines 25-55: the headers after a header tag. The text after a tag is
      what splitting at the first `:` leaves (lines 30 and 48), as
      `VlcOptPayload` and `ExtHttpPayload` show. */
  function TagUpdate(cfg: Config, h: Headers, logical: string): Headers
    requires IsTag(logical)
  {
    if IsVlcOptTag(logical) then VlcOptUpdate(h, logical[11..])
    else ExtHttpUpdate(logical[9..], cfg.parse)
  }

  /** Lines 20-101 for one line: what is yielded and the headers afterwards. */
  function Step(cfg: Config, h: Headers, line: string): (string, Headers) {
    var logical := Logical(line);
    if IsTag(logical) then (line, TagUpdate(cfg, h, logical))
    else if IsMediaUrl(logical) then (Target(cfg, logical) + HeaderQuery(h) + "\n", [])
    else (line, h)
  }

  /** The step as a value, for the generic pass. */
  function LineStep(cfg: Config): (Headers, string) -> (string, Headers) {
    (h: Headers, line: string) => Step(cfg, h, line)
  }

  /** `rewrite_m3u_links_streaming` over a whole playlist: the pass starts with no headers. */
  function Rewrite(cfg: Config, lines: seq<string>): (out: seq<string>)
    ensures |out| == |lines|
  {
    Outputs<Headers>(LineStep(cfg), [], lines)
  }

  /** The headers in force when the pass reaches line `i`. */
  function HeadersAt(cfg: Config, lines: seq<string>, i: nat): Headers
    requires i <= |lines|
  {
    StateAfter<Headers>(LineStep(cfg), [], lines[..i])
  }

  /** Lines 29-43: the header dictionary updated in place from the text of
      an `#EXTVLCOPT:` tag after its first `:`. */
  method ApplyVlcOpt(headers: Headers, option: string) returns (headers': Headers)
    ensures headers' == VlcOptUpdate(headers, option)
  {
    headers' := headers;
    if '=' in option {
      var key := Strip(Before(option, '='));
      var value := Strip(After(option, '='));
      if key == "http-header" && ':' in value {
        headers' := Put(headers', Strip(Before(value, ':')), Strip(After(value, ':')));
      } else if StartsWith(key, "http-") {
        headers' := Put(headers', HeaderName(key[5..]), value);
      }
    }
  }

  /** Lines 25-55: the header tags. The dictionary is updated from an
      `#EXTVLCOPT:` or `#EXTHTTP:` tag; any other line leaves it alone. */
  method ReadHeaderTag(cfg: Config, headers: Headers, logical: string) returns (isHeaderTag: bool, headers': Headers)
    ensures isHeaderTag == IsTag(logical)
    ensures headers' == if isHeaderTag then TagUpdate(cfg, headers, logical) else headers
  {
    headers' := headers;
    isHeaderTag := false;
    if StartsWith(logical, "#EXTVLCOPT:") {
      isHeaderTag := true;
      VlcOptPayload(logical);
      headers' := ApplyVlcOpt(headers', After(logical, ':'));
    } else if StartsWith(logical, "#EXTHTTP:") {
      isHeaderTag := true;
      ExtHttpPayload(logical);
      match cfg.parse(After(logical, ':')) {
        case Some(parsed) => headers' := parsed;
        case None => headers' := [];
      }
    }
  }

  /** Lines 64-99: the proxied URL of a media line with the gathered headers
      appended, after which the dictionary is empty. */
  method ProxyUrl(cfg: Config, headers: Headers, logical: string) returns (processed: string, headers': Headers)
    ensures processed == Target(cfg, logical) + HeaderQuery(headers)
    ensures headers' == []
  {
    headers' := headers;
    processed := Target(cfg, logical);
    if headers' != [] {
      processed := processed + HeaderQuery(headers');
      headers' := [];
    }
  }

  /** Lines 21-101, the body of the loop for one line. */
  method RewriteLine(cfg: Config, headers: Headers, lineWithNewline: string) returns (yielded: string, headers': Headers)
    ensures (yielded, headers') == Step(cfg, headers, lineWithNewline)
  {
    var lineContent := RStripChar(lineWithNewline, '\n');
    var logical := Strip(lineContent);
    var isHeaderTag;
    isHeaderTag, headers' := ReadHeaderTag(cfg, headers, logical);
    if isHeaderTag {
      yielded := lineWithNewline;
      return;
    }
    if logical != [] && logical[0] != '#' && (Contains(logical, "http://") || Contains(logical, "https://")) {
      var processed;
      processed, headers' := ProxyUrl(cfg, headers', logical);
      yielded := processed + "\n";
    } else {
      yielded := lineWithNewline;
    }
  }

  /** The pass resumed at line `i` yields that line's output and then resumes at line `i + 1`. */
  lemma ResumeAt(cfg: Config, h: Headers, lines: seq<string>, i: nat)
    requires i < |lines|
    ensures var (out, h') := Step(cfg, h, lines[i]);
      Outputs<Headers>(LineStep(cfg), h, lines[i..]) == [out] + Outputs<Headers>(LineStep(cfg), h', lines[i + 1..])
  {
    assert lines[i..][1..] == lines[i + 1..];
  }

  /** Lines 13-101: the loop over a playlist's lines, threading one header
      dictionary from line to line and collecting what is yielded. */
  method RewriteLines(cfg: Config, lines: seq<string>) returns (out: seq<string>)
    ensures out == Rewrite(cfg, lines)
  {
    var headers: Headers := [];
    out := [];
    for i := 0 to |lines|
      invariant out + Outputs<Headers>(LineStep(cfg), headers, lines[i..]) == Rewrite(cfg, lines)
    {
      ResumeAt(cfg, headers, lines, i);
      var yielded;
      yielded, headers := RewriteLine(cfg, headers, lines[i]);
      out := out + [yielded];
    }
  }

  // ---------------------------------------------------------------------
  // Properties of the pass

  /** Tags begin with `#`, so a tag is never a media line. */
  lemma TagIsNotMedia(logical: string)
    requires IsTag(logical)
    ensures !IsMediaUrl(logical)
  {
    if IsVlcOptTag(logical) {
      assert logical[..11][0] == '#';
    } else {
      assert logical[..9][0] == '#';
    }
  }

  lemma StepMedia(cfg: Config, h: Headers, line: string)
    requires IsMediaUrl(Logical(line))
    ensures Step(cfg, h, line) == (Target(cfg, Logical(line)) + HeaderQuery(h) + "\n", [])
  {
    if IsTag(Logical(line)) {
      TagIsNotMedia(Logical(line));
    }
  }

  /** Under a plain base, what a media line becomes starts with neither
      whitespace nor `#`: the stripped URL cannot, and the base does not. */
  lemma MediaOutputStart(cfg: Config, h: Headers, line: string)
    requires IsMediaUrl(Logical(line)) && PlainBase(cfg.baseUrl)
    ensures PlainStart(Step(cfg, h, line).0)
  {
    var logical := Logical(line);
    StepMedia(cfg, h, line);
    TargetStart(cfg, logical);
    var t := Target(cfg, logical);
    assert (t + HeaderQuery(h) + "\n")[0] == t[0];
  }

  lemma StepPlain(cfg: Config, h: Headers, line: string)
    requires !IsTag(Logical(line)) && !IsMediaUrl(Logical(line))
    ensures Step(cfg, h, line) == (line, h)
  {
  }

  lemma StepEcho(cfg: Config, h: Headers, line: string)
    requires !IsMediaUrl(Logical(line))
    ensures Step(cfg, h, line).0 == line
  {
  }

  /** One output line per input line, in order; line `i` of the output depends
      only on line `i` of the input and the headers the pass holds when it
      gets there. */
  lemma RewriteAt(cfg: Config, lines: seq<string>, i: nat)
    requires i < |lines|
    ensures |Rewrite(cfg, lines)| == |lines|
    ensures Rewrite(cfg, lines)[i] == Step(cfg, HeadersAt(cfg, lines, i), lines[i]).0
    ensures HeadersAt(cfg, lines, i + 1) == Step(cfg, HeadersAt(cfg, lines, i), lines[i]).1
  {
    OutputAt<Headers>(LineStep(cfg), [], lines, i);
    StateSnoc<Headers>(LineStep(cfg), [], lines, i);
  }

  /** Tag lines, comments, blank lines and anything else that is not a media
      URL are yielded exactly as received, terminator and whitespace included. */
  lemma Passthrough(cfg: Config, lines: seq<string>, i: nat)
    requires i < |lines| && !IsMediaUrl(Logical(lines[i]))
    ensures Rewrite(cfg, lines)[i] == lines[i]
  {
    RewriteAt(cfg, lines, i);
    StepEcho(cfg, HeadersAt(cfg, lines, i), lines[i]);
  }

  /** A media line becomes its target URL, then the `h_` parameters of the
      headers gathered since the last media line, then one line feed; after
      it the pass holds no headers. */
  lemma MediaLine(cfg: Config, lines: seq<string>, i: nat)
    requires i < |lines| && IsMediaUrl(Logical(lines[i]))
    ensures Rewrite(cfg, lines)[i] ==
      Target(cfg, Logical(lines[i])) + HeaderQuery(HeadersAt(cfg, lines, i)) + "\n"
    ensures HeadersAt(cfg, lines, i + 1) == []
  {
    RewriteAt(cfg, lines, i);
    StepMedia(cfg, HeadersAt(cfg, lines, i), lines[i]);
  }

  lemma MediaConsumes(cfg: Config, lines: seq<string>, i: nat)
    requires i < |lines| && IsMediaUrl(Logical(lines[i]))
    ensures HeadersAt(cfg, lines, i + 1) == []
  {
    StateSnoc<Headers>(LineStep(cfg), [], lines, i);
    StepMedia(cfg, HeadersAt(cfg, lines, i), lines[i]);
  }

  /** Lines that are neither tags nor media lines (such as `#EXTINF` or blank
      lines) carry the gathered headers along untouched. */
  lemma HeadersCarried(cfg: Config, lines: seq<string>, i: nat, j: nat)
    requires i <= j <= |lines|
    requires forall k :: i <= k < j ==> !IsTag(Logical(lines[k])) && !IsMediaUrl(Logical(lines[k]))
    ensures HeadersAt(cfg, lines, j) == HeadersAt(cfg, lines, i)
  {
    forall k, h: Headers | i <= k < j ensures LineStep(cfg)(h, lines[k]).1 == h {
      StepPlain(cfg, h, lines[k]);
    }
    StateKept<Headers>(LineStep(cfg), [], lines, i, j);
  }

  /** Without a tag a line cannot give the pass headers it did not hold. */
  lemma StepNoTag(cfg: Config, line: string)
    requires !IsTag(Logical(line))
    ensures Step(cfg, [], line).1 == []
  {
  }

  /** With no headers held after line `i` and no tag on the way, none are
      picked up. */
  lemma NoTagsNoHeaders(cfg: Config, lines: seq<string>, i: nat, j: nat)
    requires i < j <= |lines| && HeadersAt(cfg, lines, i + 1) == []
    requires forall k :: i < k < j ==> !IsTag(Logical(lines[k]))
    ensures HeadersAt(cfg, lines, j) == []
  {
    forall k | i < k < j ensures LineStep(cfg)([], lines[k]).1 == [] {
      StepNoTag(cfg, lines[k]);
    }
    StateStays<Headers>(LineStep(cfg), [], lines, i, j, []);
  }

  /** Headers are attached once: the next media line after a media line,
      with no tag in between, gets no `h_` parameters. */
  lemma AttachedOnce(cfg: Config, lines: seq<string>, i: nat, j: nat)
    requires i < j < |lines|
    requires IsMediaUrl(Logical(lines[i])) && IsMediaUrl(Logical(lines[j]))
    requires forall k :: i < k < j ==> !IsTag(Logical(lines[k]))
    ensures Rewrite(cfg, lines)[j] == Target(cfg, Logical(lines[j])) + "\n"
  {
    MediaConsumes(cfg, lines, i);
    NoTagsNoHeaders(cfg, lines, i, j);
    MediaLine(cfg, lines, j);
  }

  lemma StepVlcOpt(cfg: Config, h: Headers, line: string)
    requires IsVlcOptTag(Logical(line))
    ensures Step(cfg, h, line) == (line, VlcOptUpdate(h, Logical(line)[11..]))
  {
  }

  /** An `#EXTVLCOPT:` line is echoed, and the headers after it are those
      before it updated by its option text. */
  lemma VlcOptLine(cfg: Config, lines: seq<string>, i: nat)
    requires i < |lines| && IsVlcOptTag(Logical(lines[i]))
    ensures Rewrite(cfg, lines)[i] == lines[i]
    ensures HeadersAt(cfg, lines, i + 1) == VlcOptUpdate(HeadersAt(cfg, lines, i), Logical(lines[i])[11..])
  {
    RewriteAt(cfg, lines, i);
    StepVlcOpt(cfg, HeadersAt(cfg, lines, i), lines[i]);
  }

  lemma StepExtHttp(cfg: Config, h: Headers, line: string)
    requires IsExtHttpTag(Logical(line))
    ensures Step(cfg, h, line) == (line, ExtHttpUpdate(Logical(line)[9..], cfg.parse))
  {
    ExtHttpPayload(Logical(line));
  }

  /** An `#EXTHTTP:` line is echoed and replaces the headers: what the pass
      holds afterwards does not depend on what it held before, and a payload
      that does not parse leaves it holding none. */
  lemma ExtHttpReplaces(cfg: Config, h1: Headers, h2: Headers, line: string)
    requires IsExtHttpTag(Logical(line))
    ensures Step(cfg, h1, line) == Step(cfg, h2, line)
    ensures Step(cfg, h1, line).0 == line
    ensures Step(cfg, h1, line).1 ==
      match cfg.parse(Logical(line)[9..])
      case Some(parsed) => parsed
      case None => []
  {
    StepExtHttp(cfg, h1, line);
    StepExtHttp(cfg, h2, line);
  }
}
