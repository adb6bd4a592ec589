# M3U playlist rewriting and merging, modelled in Dafny

This project models the playlist builder of mediaflow-proxy. That is the
code behind the `/playlist` endpoint, which fetches several M3U playlists,
rewrites their media links so they go through the proxy, and merges them
into one playlist.

It models four parts:

- **The per-line rewriter** (`rewrite_m3u_links_streaming`). It is a single
  pass over the lines of one playlist and carries one header dictionary
  along.
  - An `#EXTVLCOPT:` tag sets one header. An `#EXTHTTP:` tag replaces the
    whole dictionary with a parsed JSON object, or empties it when the
    payload does not parse. Both tags are echoed unchanged.
  - A *media line* is a stripped line that is not empty, does not start
    with `#`, and contains `http://` or `https://`. It becomes a proxy URL
    chosen by an ordered first-match rule table. With an API password the
    rules test `pluto.tv`, `vavoo.to`, `vixsrc.to`, `.m3u8`, `.mpd` and
    `.php`; without one, every URL except a `pluto.tv` one goes through
    `/proxy/m3u`.
  - The gathered headers are then appended to the media line as
    `&h_<quote(name)>=<quote(quote(value))>`, and the dictionary is emptied.
  - Every other line is echoed byte for byte.
- **The merge** (`async_generate_combined_playlist`).
  - Each definition names a source URL: the text after its first `&`, or
    the whole definition when it has no `&`.
  - The fetch outcomes are taken in definition order. A failed fetch
    becomes one `# ERROR processing playlist ...` comment line.
  - A successful playlist is rewritten and emitted. Once some playlist has
    yielded a line, every later playlist loses its first line if that line
    is an `#EXTM3U` header (section 4.3.1.1 of RFC 8216).
- **The line shaping of the download** (line 123). A non-empty decoded line
  is stored with a line feed appended; an empty one is stored as `''`.
- **The request handling before the merge** (lines 185-198). A non-empty
  `d` is split at `;` into definitions, and the base URL is derived.

Modules:

| module | file | what it holds |
|---|---|---|
| `Wrappers` | wrappers.dfy | `Option` and `Result` |
| `PyStr` | pystr.dfy | Python's `strip`, `rstrip`, `split`, `rsplit`, `join`, `startswith`, `in` and `capitalize`, over ASCII whitespace and ASCII case |
| `Percent` | percent.dfy | `urllib.parse.quote` with its default `safe='/'`, over UTF-8, and its inverse |
| `HeaderMap` | headermap.dfy | the header dictionary, as an insertion-ordered sequence of entries with distinct keys |
| `Directives` | directives.dfy | what `#EXTVLCOPT:` and `#EXTHTTP:` do to the dictionary |
| `Targets` | targets.dfy | the rule table choosing a media line's proxy URL |
| `QueryParams` | queryparams.dfy | the `&h_...` parameters, and how a receiver decodes them |
| `LineFold` | linefold.dfy | a generic left-to-right pass that carries a state and yields one line per line |
| `Rewriter` | rewriter.dfy | the rewriter: the pure pass and the loop proved equal to it |
| `Fetch` | fetch.dfy | the download's line shaping |
| `Request` | request.dfy | the definition split and the base URL |
| `Merge` | merge.dfy | the merge: the pure specification and the loop proved equal to it |

The loops of the source are Dafny methods with `while`/`for` loops
(`Rewriter.RewriteLines`, `Merge.GenerateCombined`, `Merge.EmitSegment`,
`Merge.SourceUrls`, `Fetch.CollectLines`). Each is proved equal to a pure
function (`Rewriter.Rewrite`, `Merge.Combined`, ...). The source's
guarantees are then lemmas about those functions. The header dictionary is
a value of type `HeaderMap.Headers` that the loop reassigns, as the source
reassigns `current_ext_headers`.

Three behaviours of the code worth knowing:

- `urllib.parse.quote` keeps `/` by default, so a `User-Agent: Mozilla/5.0`
  header is appended as `&h_User-Agent=Mozilla/5.0`: the double quoting
  changes nothing in a value made of unreserved characters and `/`
  (`QueryParams.SafeHeaderParam`).
- The override of the base URL at lines 194-198 can never take effect,
  because the text before the last `:` is a prefix of a text that does not
  start with `http` (`Request.OverrideUnreachable`). So the base URL is
  always the request's own (`Request.BaseUrlIsRequestBase`).
- The single-header guarantee of the merge needs the rewriter not to make
  new `#EXTM3U` lines. It does not under any base URL that is empty or
  starts with a character other than whitespace and `#`, as every `http...`
  base does (`Merge.RewriteKeepsHeaderFirst`, `Request.RequestBaseIsPlain`);
  a base that starts with `#EXTM3U` would turn media lines into header
  lines (`Merge.BaseMakesHeader`).

## Model

| member | source | states |
|---|---|---|
| Rewriter.Logical | mediaflow_proxy/routes/playlist_builder.py:21-22 | the logical line is the stripped line: dropping the trailing line feeds first changes nothing, and no whitespace is left at either end |
| Rewriter.IsVlcOptTag | mediaflow_proxy/routes/playlist_builder.py:25 | the `#EXTVLCOPT:` tag test: the logical line starts with `#EXTVLCOPT:`; `VlcOptPayload` and `VlcOptLine` state what follows from it |
| Rewriter.IsExtHttpTag | mediaflow_proxy/routes/playlist_builder.py:47 | the `#EXTHTTP:` tag test: the logical line starts with `#EXTHTTP:`; `ExtHttpPayload` shows it excludes the `#EXTVLCOPT:` test |
| Rewriter.TagUpdate | mediaflow_proxy/routes/playlist_builder.py:24-55 | the headers after a tag: `VlcOptUpdate` of the text after `#EXTVLCOPT:`, or `ExtHttpUpdate` of the text after `#EXTHTTP:`; `ReadHeaderTag` is proved equal to it |
| Rewriter.IsMediaUrl | mediaflow_proxy/routes/playlist_builder.py:61-62 | the lines that get rewritten: non-empty, not starting with `#`, and holding `http://` or `https://`; its consequences are stated by `TagIsNotMedia`, `Passthrough` and `MediaLine` |
| Rewriter.Target | mediaflow_proxy/routes/playlist_builder.py:64-91 | the URL a media line is sent to: the password rules when a password is given, the open rule otherwise; `PlutoUnchanged`, `OpenTargetWraps` and `TargetStart` state what it gives |
| Rewriter.Step | mediaflow_proxy/routes/playlist_builder.py:20-101 | one round of the loop: a tag is echoed and updates the headers, a media line becomes its target and the query of the held headers and empties them, any other line is echoed; `RewriteLine` is proved equal to it |
| Rewriter.Rewrite | mediaflow_proxy/routes/playlist_builder.py:13-101 | the whole pass, started with no headers, yields exactly one line per line it reads; `RewriteLines` is proved equal to it |
| Rewriter.RewriteLines | mediaflow_proxy/routes/playlist_builder.py:13-101 | the loop over the lines, threading the header dictionary, yields exactly the pure pass `Rewrite` |
| Rewriter.RewriteLine | mediaflow_proxy/routes/playlist_builder.py:20-101 | the loop body for one line yields the line and the headers that one `Step` of the pass gives |
| Rewriter.ReadHeaderTag | mediaflow_proxy/routes/playlist_builder.py:24-55 | a line is a header tag exactly when its logical text starts with `#EXTVLCOPT:` or `#EXTHTTP:`; then the headers are updated by the tag, and otherwise they are left alone |
| Rewriter.ApplyVlcOpt | mediaflow_proxy/routes/playlist_builder.py:28-43 | the in-place dictionary update from an `#EXTVLCOPT:` option gives `VlcOptUpdate` |
| Rewriter.ProxyUrl | mediaflow_proxy/routes/playlist_builder.py:64-97 | a media line becomes its target URL followed by the query of all gathered headers, and the dictionary is empty afterwards |
| Rewriter.RewriteAt | mediaflow_proxy/routes/playlist_builder.py:18-101 | one output line per input line, in order; output line `i` is the step on input line `i` under the headers in force there |
| Rewriter.ResumeAt | mediaflow_proxy/routes/playlist_builder.py:20-101 | the pass resumed at line `i` yields that line's output, then resumes at line `i + 1` with the headers that line left |
| Rewriter.Passthrough | mediaflow_proxy/routes/playlist_builder.py:57-59 | every line that is not a media line (tags, comments, blank lines) is yielded byte for byte, terminator and whitespace included |
| Rewriter.MediaLine | mediaflow_proxy/routes/playlist_builder.py:61-99 | a media line becomes target URL + `h_` parameters of the headers gathered so far + one line feed, and no headers are held after it |
| Rewriter.MediaConsumes | mediaflow_proxy/routes/playlist_builder.py:94-97 | after a media line the pass holds no headers |
| Rewriter.HeadersCarried | mediaflow_proxy/routes/playlist_builder.py:18-101 | lines that are neither tags nor media lines (such as `#EXTINF` or blank lines) carry the headers along unchanged |
| Rewriter.NoTagsNoHeaders | mediaflow_proxy/routes/playlist_builder.py:94-101 | with no headers held and no tag on the way, none are picked up |
| Rewriter.AttachedOnce | mediaflow_proxy/routes/playlist_builder.py:94-99 | headers are attached once: the next media line after a media line, with no tag between them, gets no `h_` parameters |
| Rewriter.VlcOptLine | mediaflow_proxy/routes/playlist_builder.py:25-45 | an `#EXTVLCOPT:` line is echoed, and the headers after it are the ones before it updated by the text after `#EXTVLCOPT:` |
| Rewriter.ExtHttpReplaces | mediaflow_proxy/routes/playlist_builder.py:47-59 | an `#EXTHTTP:` line is echoed and replaces the headers: the result does not depend on the headers held before; it is the parsed object, or empty when parsing fails |
| Rewriter.TagIsNotMedia | mediaflow_proxy/routes/playlist_builder.py:57-62 | a header tag is never a media line |
| Rewriter.PlutoUnchanged | mediaflow_proxy/routes/playlist_builder.py:69-71 | a `pluto.tv` URL is never wrapped in a proxy URL, with or without a password |
| Rewriter.OpenTargetWraps | mediaflow_proxy/routes/playlist_builder.py:86-91 | without a password every other media URL becomes `{base}/proxy/m3u?url={url}` |
| Rewriter.HttpBaseIsPlain | mediaflow_proxy/routes/playlist_builder.py:191 | a base URL starting with `http`, as the request gives it, is empty or starts with neither whitespace nor `#` |
| Rewriter.BuildStart | mediaflow_proxy/routes/playlist_builder.py:73-81 | every proxy URL template starts with the base's first character, or with `/` when the base is empty, so under such a base it starts with neither whitespace nor `#` |
| Rewriter.TargetStart | mediaflow_proxy/routes/playlist_builder.py:64-91 | under such a base, the target of a URL that starts with neither whitespace nor `#` starts with neither, in both modes and for every rule |
| Rewriter.MediaOutputStart | mediaflow_proxy/routes/playlist_builder.py:61-99 | under such a base, what a media line becomes starts with neither whitespace nor `#` |
| Rewriter.ExtHttpPayload | mediaflow_proxy/routes/playlist_builder.py:47-50 | an `#EXTHTTP:` tag is not an `#EXTVLCOPT:` tag, and its text after the first `:` is everything after the tag |
| Rewriter.VlcOptPayload | mediaflow_proxy/routes/playlist_builder.py:25-28 | an `#EXTVLCOPT:` tag's text after the first `:` is everything after the tag |
| Targets.Build | mediaflow_proxy/routes/playlist_builder.py:73-81 | the three proxy URL templates the password rules use: `{base}/proxy/hls/manifest.m3u8?...`, `{base}/extractor/video?host=VixCloud&redirect_stream=true&...` and `{base}/proxy/mpd/manifest.m3u8?...`, each ending `api_password={password}&d={url}`, or the URL itself; `BuildStart` states how each begins |
| Targets.PasswordTarget | mediaflow_proxy/routes/playlist_builder.py:67-84 | the `elif` chain as written; `PasswordTargetIsFirstMatch` proves it equal to the ordered rule table |
| Targets.OpenTarget | mediaflow_proxy/routes/playlist_builder.py:86-91 | without a password a `pluto.tv` URL is kept and any other becomes `{base}/proxy/m3u?url={url}`; `OpenTargetWraps` states it |
| Targets.FirstMatch | mediaflow_proxy/routes/playlist_builder.py:69-84 | the position of the first rule whose needle the URL contains: no earlier rule matches, and no rule matches when there is none |
| Targets.FirstMatchAt | mediaflow_proxy/routes/playlist_builder.py:69-84 | a matching rule with no match before it is the one chosen |
| Targets.PasswordTargetIsFirstMatch | mediaflow_proxy/routes/playlist_builder.py:67-84 | the `elif` chain is the ordered rule table `pluto.tv`, `vavoo.to`, `vixsrc.to`, `.m3u8`, `.mpd`, `.php` with first match winning and its exact templates, and the URL is left as it is when no rule matches |
| Directives.VlcOptHeader | mediaflow_proxy/routes/playlist_builder.py:29-43 | an option names a header only if it holds `=` and its stripped key starts with `http-` |
| Directives.VlcOptUpdate | mediaflow_proxy/routes/playlist_builder.py:29-43 | an option with no `=`, or whose key does not start with `http-`, leaves the headers unchanged |
| Directives.VlcOptHttpHeader | mediaflow_proxy/routes/playlist_builder.py:35-39 | `http-header=Name:Value` sets the stripped name to the stripped value, split at the first `:` |
| Directives.VlcOptHttpPrefixed | mediaflow_proxy/routes/playlist_builder.py:40-43 | any other `http-<suffix>` key (including `http-header` whose value has no `:`, which names `Header`) sets the capitalised, dash-joined suffix to the stripped value |
| Directives.HeaderName | mediaflow_proxy/routes/playlist_builder.py:42 | the header name has the suffix's length, each word's first letter upper case, the rest lower case, and the dashes kept |
| Directives.JoinCapitalized | mediaflow_proxy/routes/playlist_builder.py:42 | joining the capitalised words with `-` capitalises every word of the `-`-joined text at the same positions |
| Directives.CapitalizeAll | mediaflow_proxy/routes/playlist_builder.py:42 | every word capitalised, in order |
| Directives.CapitalizedWord | mediaflow_proxy/routes/playlist_builder.py:42 | capitalising one word agrees with the word-by-word title casing |
| Directives.ExtHttpUpdate | mediaflow_proxy/routes/playlist_builder.py:47-55 | the parsed object replaces the headers, or none are left when parsing fails; `ExtHttpReplaces` states what this does in the pass |
| HeaderMap.Put | mediaflow_proxy/routes/playlist_builder.py:39-43 | assigning a key overwrites it in place when present and appends it otherwise; afterwards it maps to the new value and every other key keeps its value |
| HeaderMap.PutExisting | mediaflow_proxy/routes/playlist_builder.py:39-43 | overwriting a present key keeps the key order and the keys distinct |
| HeaderMap.PutNew | mediaflow_proxy/routes/playlist_builder.py:39-43 | a new key is appended last, keeping the keys distinct |
| HeaderMap.Lookup | mediaflow_proxy/routes/playlist_builder.py:39-43 | a key has a value exactly when it is present, and the value is the one stored with it |
| HeaderMap.KeyIndex | mediaflow_proxy/routes/playlist_builder.py:39-43 | the position where a present key is stored |
| HeaderMap.LookupAfterUpdate | mediaflow_proxy/routes/playlist_builder.py:39-43 | after overwriting entry `i` its key maps to the new value, and no other key changes |
| HeaderMap.LookupAfterAppend | mediaflow_proxy/routes/playlist_builder.py:39-43 | after appending a new key it maps to its value, and no other key changes |
| QueryParams.ParamBody | mediaflow_proxy/routes/playlist_builder.py:95 | `h_` then the name quoted once, `=`, and the value quoted twice; `ParamRoundTrip` decodes it back |
| QueryParams.HeaderParam | mediaflow_proxy/routes/playlist_builder.py:95 | one header as an appended parameter: `&` followed by its `ParamBody`; `SafeHeaderParam` states it for unreserved text |
| QueryParams.HeaderQuery | mediaflow_proxy/routes/playlist_builder.py:94-95 | the appended parameters are empty exactly when there are no headers, so the guard at line 94 changes nothing |
| QueryParams.HeaderQueryRoundTrip | mediaflow_proxy/routes/playlist_builder.py:95 | for ASCII names and values, a receiver that splits at `&`, decodes the name once and the value twice gets back exactly the headers, in dictionary order |
| QueryParams.ParamRoundTrip | mediaflow_proxy/routes/playlist_builder.py:95 | one `h_` parameter holds no `&` and, for an ASCII name and value, decodes back to its header |
| QueryParams.SafeHeaderParam | mediaflow_proxy/routes/playlist_builder.py:95 | a name and a value made only of unreserved characters and `/` are appended as they are, as `&h_<name>=<value>` |
| QueryParams.HeaderQueryStart | mediaflow_proxy/routes/playlist_builder.py:95 | the header query is empty or starts with `&` |
| Percent.Quote | mediaflow_proxy/routes/playlist_builder.py:95 | the output of `quote` holds only unreserved characters, `/` and `%` |
| Percent.UnquoteQuote | mediaflow_proxy/routes/playlist_builder.py:95 | decoding what `quote` encoded gives back any ASCII text |
| Percent.DoubleQuote | mediaflow_proxy/routes/playlist_builder.py:95 | quoting twice only escapes the `%` of the first quoting again, and decoding twice gives back any ASCII value |
| Percent.QuoteOfQuoted | mediaflow_proxy/routes/playlist_builder.py:95 | quoting text that `quote` produced escapes exactly its `%` signs |
| Percent.QuoteSafeText | mediaflow_proxy/routes/playlist_builder.py:95 | text of unreserved characters and `/` is left as it is by `quote` |
| Percent.UnquoteQuoteByte | mediaflow_proxy/routes/playlist_builder.py:95 | one encoded ASCII byte decodes back to its character |
| Percent.Utf8 | mediaflow_proxy/routes/playlist_builder.py:95 | a character is encoded as one to four bytes: an ASCII character as itself, any other as bytes all at least 128 |
| LineFold.Outputs | mediaflow_proxy/routes/playlist_builder.py:20-101 | a pass yields exactly one line per input line |
| LineFold.OutputAt | mediaflow_proxy/routes/playlist_builder.py:20-101 | output line `i` is the step on line `i` from the state the first `i` lines left |
| LineFold.OutputsSplit | mediaflow_proxy/routes/playlist_builder.py:20-101 | a pass over a prefix, then over the rest from the state the prefix left, is the pass over the whole |
| LineFold.StateSnoc | mediaflow_proxy/routes/playlist_builder.py:20-101 | the state after `i + 1` lines is the step on line `i` from the state after `i` |
| LineFold.StateKept | mediaflow_proxy/routes/playlist_builder.py:20-101 | lines whose step never changes the state leave it as it was |
| LineFold.StateStays | mediaflow_proxy/routes/playlist_builder.py:20-101 | lines whose step keeps one given state keep that state once it is reached |
| PyStr.Strip | mediaflow_proxy/routes/playlist_builder.py:22 | `strip()` as a left strip after a right strip; `StripUnique` characterises the cut |
| PyStr.Contains | mediaflow_proxy/routes/playlist_builder.py:61-62 | `p in s`: `p` occurs at some position of `s`; used by every substring test of the rewriter |
| PyStr.StartsWith | mediaflow_proxy/routes/playlist_builder.py:25 | `s.startswith(p)`: `p` is a prefix of `s`; used by the tag tests at lines 25, 40, 47, 156 and 194 |
| PyStr.Before | mediaflow_proxy/routes/playlist_builder.py:30-36 | `s.split(c, 1)[0]` for a `c` in `s`: everything before the first `c`; `SplitAt` gives it back |
| PyStr.After | mediaflow_proxy/routes/playlist_builder.py:30-36 | `s.split(c, 1)[1]` for a `c` in `s`: everything after the first `c`; `SplitAt` gives it back |
| PyStr.Join | mediaflow_proxy/routes/playlist_builder.py:42 | `c.join(parts)`: the parts with one `c` between neighbours; `JoinSplit` and `SplitJoin` pair it with `Split` |
| PyStr.LStrip | mediaflow_proxy/routes/playlist_builder.py:22 | the left strip drops a whitespace prefix and nothing else, and leaves a non-space first |
| PyStr.RStrip | mediaflow_proxy/routes/playlist_builder.py:22 | the right strip drops a whitespace suffix and nothing else, and leaves a non-space last |
| PyStr.RStripChar | mediaflow_proxy/routes/playlist_builder.py:21 | `rstrip('\n')` drops a suffix of line feeds and nothing else |
| PyStr.StripAfterRStripNewline | mediaflow_proxy/routes/playlist_builder.py:21-22 | stripping the text without its trailing line feeds is stripping the text |
| PyStr.StripKeepsPrefix | mediaflow_proxy/routes/playlist_builder.py:156 | for a text starting with a non-space, the stripped text has a prefix ending in a non-space exactly when the text has it |
| PyStr.StripAround | mediaflow_proxy/routes/playlist_builder.py:31-38 | stripping text around a non-space separator strips only its two ends |
| PyStr.StripUnique | mediaflow_proxy/routes/playlist_builder.py:22 | the strip is the one cut that leaves only whitespace outside and non-spaces at both ends |
| PyStr.IndexOf | mediaflow_proxy/routes/playlist_builder.py:28-36 | the position where `split(c, 1)` cuts: the first occurrence of `c` |
| PyStr.SplitAt | mediaflow_proxy/routes/playlist_builder.py:28-36 | text cut at its first separator gives back the two sides |
| PyStr.RSplitHead | mediaflow_proxy/routes/playlist_builder.py:196 | `rsplit(c, 1)[0]` is a prefix of the text |
| PyStr.LastIndexOf | mediaflow_proxy/routes/playlist_builder.py:196 | the position where `rsplit(c, 1)` cuts: the last occurrence of `c` |
| PyStr.Split | mediaflow_proxy/routes/playlist_builder.py:188 | `split(c)` gives at least one part, none holding `c` |
| PyStr.JoinSplit | mediaflow_proxy/routes/playlist_builder.py:188 | joining what was split gives back the text |
| PyStr.SplitJoin | mediaflow_proxy/routes/playlist_builder.py:188 | splitting what was joined gives back parts that hold no separator |
| PyStr.Capitalize | mediaflow_proxy/routes/playlist_builder.py:42 | `capitalize` keeps the length, upper-cases the first character and lower-cases the rest |
| Fetch.Shape | mediaflow_proxy/routes/playlist_builder.py:123 | a stored line is empty exactly when the decoded line is, and otherwise is the decoded line plus one line feed |
| Fetch.RStripShape | mediaflow_proxy/routes/playlist_builder.py:123 | the rewriter's `rstrip('\n')` recovers a decoded line without a line feed of its own from its stored form |
| Fetch.CollectLines | mediaflow_proxy/routes/playlist_builder.py:113-123 | the download loop stores exactly `Stored(decoded)`: one shaped line per decoded line, in order |
| Fetch.Stored | mediaflow_proxy/routes/playlist_builder.py:113-123 | the stored playlist has one line per decoded line, each the shaped form of that line; `CollectLines` is proved equal to it |
| Request.Definitions | mediaflow_proxy/routes/playlist_builder.py:185-188 | an empty `d` is refused; otherwise its definitions are at least one, hold no `;`, and joined with `;` give `d` back |
| Request.BaseUrl | mediaflow_proxy/routes/playlist_builder.py:191-198 | the base URL as written, override included; `BaseUrlIsRequestBase` proves the override never applies |
| Request.OverrideUnreachable | mediaflow_proxy/routes/playlist_builder.py:194-197 | the text before the last `:` starts with `http` only if the whole text does, so lines 194 and 197 cannot both hold |
| Request.BaseUrlIsRequestBase | mediaflow_proxy/routes/playlist_builder.py:191-198 | the base URL is always the request's base URL without trailing `/` |
| Request.RequestBaseIsPlain | mediaflow_proxy/routes/playlist_builder.py:191-198 | a request base URL starting with `http` gives a base URL that is empty or starts with neither whitespace nor `#`, so `Merge.SingleHeaderCombined` applies to every such request |
| Merge.RewriteOne | mediaflow_proxy/routes/playlist_builder.py:153 | a successful fetch's lines go through the rewriter and a failure stays a failure; `RewriteAllYields` states that it keeps whether a playlist yields |
| Merge.ErrorLine | mediaflow_proxy/routes/playlist_builder.py:147 | the line a failed fetch contributes, `# ERROR processing playlist {url}: {error}` and a line feed; `ErrorLineIsNotHeader` and `FailureContributes` state its use |
| Merge.IsExtM3U | mediaflow_proxy/routes/playlist_builder.py:156 | a line is a header when its stripped text starts with `#EXTM3U` |
| Merge.Kept | mediaflow_proxy/routes/playlist_builder.py:158-166 | what a successful playlist's rewritten lines contribute: all of them before the flag is set, and afterwards all but a first line that is a header; `EmitSegment` is proved to append it |
| Merge.Piece | mediaflow_proxy/routes/playlist_builder.py:146-166 | what one fetch outcome contributes: its error line, or its kept lines |
| Merge.Handles | mediaflow_proxy/routes/playlist_builder.py:158-169 | the flag after one outcome: set when it was set or the playlist yielded a line; failures and empty playlists leave it as it was |
| Merge.Merged | mediaflow_proxy/routes/playlist_builder.py:144-169 | the merge over already rewritten outcomes, each piece computed from the flag the earlier ones left; its properties are the `Merged...` lemmas below |
| Merge.Combined | mediaflow_proxy/routes/playlist_builder.py:129-169 | the whole merged playlist: every fetch outcome rewritten, then merged from an unset flag; `GenerateCombined` is proved equal to it |
| Merge.SourceUrl | mediaflow_proxy/routes/playlist_builder.py:134-138 | without `&` a definition is its own URL; with one it is `name&url` with no `&` in the name |
| Merge.SourceUrlOf | mediaflow_proxy/routes/playlist_builder.py:134-138 | a definition `name&url` whose name has no `&` names `url`, whatever `url` holds |
| Merge.SourceUrls | mediaflow_proxy/routes/playlist_builder.py:132-139 | the source URL of every definition, in definition order |
| Merge.GenerateCombined | mediaflow_proxy/routes/playlist_builder.py:129-169 | the merge loop yields exactly the merged playlist `Combined` of the rewritten fetch outcomes, in definition order |
| Merge.EmitPlaylist | mediaflow_proxy/routes/playlist_builder.py:145-169 | one fetch outcome appends its error line, or its rewritten lines under the header rule, and updates the first-header flag |
| Merge.EmitSegment | mediaflow_proxy/routes/playlist_builder.py:150-169 | the inner loop with `current_playlist_had_lines` and `first_line_of_this_segment` appends the kept lines, and sets the flag exactly when the playlist yielded a line |
| Merge.MergeStep | mediaflow_proxy/routes/playlist_builder.py:145-169 | the merge loop's invariant survives one more playlist |
| Merge.HandledAfterIff | mediaflow_proxy/routes/playlist_builder.py:144-169 | the first-header flag is set after a run of fetches exactly when it was set before or some successful playlist in the run yielded a line |
| Merge.HandledAfterSplit | mediaflow_proxy/routes/playlist_builder.py:144-169 | the flag after a run is the flag after its suffix, started from the flag its prefix left |
| Merge.HandledStays | mediaflow_proxy/routes/playlist_builder.py:144-169 | once set, the flag stays set |
| Merge.ChainSplit | mediaflow_proxy/routes/playlist_builder.py:145-169 | the merge loop over a prefix, then over the rest from the flag the prefix left, is the loop over the whole |
| Merge.MergedSplit | mediaflow_proxy/routes/playlist_builder.py:145-169 | the merged output is that of the first `k` playlists followed by that of the rest, started from the flag the first `k` left |
| Merge.MergedFirst | mediaflow_proxy/routes/playlist_builder.py:145-169 | the merged output is the first playlist's contribution followed by the merge of the rest |
| Merge.MergedCons | mediaflow_proxy/routes/playlist_builder.py:145-169 | from playlist `i` on, the output is playlist `i`'s contribution followed by the merge from `i + 1` |
| Merge.MergedAt | mediaflow_proxy/routes/playlist_builder.py:145-169 | playlist `i` contributes its piece between the output of the playlists before it and that of the ones after it: the merge keeps definition order |
| Merge.FailureContributes | mediaflow_proxy/routes/playlist_builder.py:146-148 | a failed fetch contributes exactly `# ERROR processing playlist {url}: {error}\n` and leaves the flag alone |
| Merge.ErrorLineIsNotHeader | mediaflow_proxy/routes/playlist_builder.py:147-156 | an error line is never taken for an `#EXTM3U` header |
| Merge.LaterPlaylist | mediaflow_proxy/routes/playlist_builder.py:158-166 | once some earlier playlist yielded a line, a successful playlist loses its first line exactly when it is an `#EXTM3U` header, and every other line is emitted |
| Merge.NothingYielded | mediaflow_proxy/routes/playlist_builder.py:144-169 | failed fetches and empty playlists contribute only their error lines and do not set the flag |
| Merge.NoErrors | mediaflow_proxy/routes/playlist_builder.py:146-148 | fetches that all succeeded contribute no error lines |
| Merge.FirstInFull | mediaflow_proxy/routes/playlist_builder.py:158-169 | the first successful playlist that yields a line is emitted in full, after only the error lines of the fetches before it, and sets the flag |
| Merge.FirstYield | mediaflow_proxy/routes/playlist_builder.py:168-169 | when some playlist yields a line, there is a first one that does |
| Merge.PieceHeaders | mediaflow_proxy/routes/playlist_builder.py:156-166 | a playlist that starts with its one header contributes one header when the flag is unset and it has lines, and none otherwise |
| Merge.SingleHeader | mediaflow_proxy/routes/playlist_builder.py:144-169 | when every playlist starts with its one `#EXTM3U` header, the output holds exactly one header if some playlist yields a line and none otherwise |
| Merge.HeaderComesFirst | mediaflow_proxy/routes/playlist_builder.py:144-169 | when every fetch succeeded and every playlist starts with its one header, and some playlist has lines, the output's first line is an `#EXTM3U` header |
| Merge.SingleHeaderCombined | mediaflow_proxy/routes/playlist_builder.py:129-169 | for fetched playlists that each start with their one header and a base URL that is empty or starts with neither whitespace nor `#`, the merged playlist holds exactly one `#EXTM3U` header when some fetch gave lines and none otherwise |
| Merge.HeaderComesFirstCombined | mediaflow_proxy/routes/playlist_builder.py:129-169 | when every fetch succeeded with a playlist whose first line, if any, is a header, and some fetch gave lines, the merged playlist starts with an `#EXTM3U` header, for every base URL |
| Merge.RewriteKeepsHeaderFirst | mediaflow_proxy/routes/playlist_builder.py:57-101 | under such a base URL, a playlist with its one header first is rewritten with its one header first |
| Merge.BaseMakesHeader | mediaflow_proxy/routes/playlist_builder.py:86-99 | without that condition the guarantee fails: a base URL starting with `#EXTM3U` turns a non-`pluto.tv` media line into a header line |
| Merge.PlainIsNotHeader | mediaflow_proxy/routes/playlist_builder.py:156 | a line starting with neither whitespace nor `#` is no header |
| Merge.RewriteAllYields | mediaflow_proxy/routes/playlist_builder.py:153-169 | a rewritten playlist yields a line exactly when its fetch gave lines |
| Merge.StoredSetsFlag | mediaflow_proxy/routes/playlist_builder.py:123-169 | a download that gave at least one line sets the flag even when every line it gave is empty: an empty line is stored as `''` and echoed as `''` |
| Merge.HeaderRewrittenAsIs | mediaflow_proxy/routes/playlist_builder.py:57-101 | a playlist fetched with a header first is rewritten with that same header first |
| Merge.HeaderIsNotMedia | mediaflow_proxy/routes/playlist_builder.py:156 | an `#EXTM3U` header line is never a media line |
| Merge.CountHeadersAppend | mediaflow_proxy/routes/playlist_builder.py:156 | the headers of two pieces of output add up |
| Merge.NoHeaders | mediaflow_proxy/routes/playlist_builder.py:156 | lines none of which is a header count no headers |
| Merge.KeptSnoc | mediaflow_proxy/routes/playlist_builder.py:158-167 | extending a segment by one line drops that line when it is the first, the flag is set and it is a header, and otherwise appends it to what the segment contributes |

## Left out

- The download itself (lines 104-127 apart from line 123) is left out: the
  HTTP client, `verify=False`, the timeout, `raise_for_status` and UTF-8
  decoding. The merge is given each fetch's outcome as a lines-or-error
  value, and the error's text is given as a string (`str(lines)` at
  line 147).
- The concurrency of `asyncio.gather` (line 142) is not modelled: the
  outcomes are given as a sequence in definition order, which is the order
  `gather` returns them in.
- The rewriter and the merge are generators that yield lazily. The model
  computes the whole output; the lines and their order are the same.
- The FastAPI routing, `StreamingResponse`, response headers and mapping of
  exceptions to HTTP status codes (lines 172-215) are left out. One oddity
  of that code: the 400 raised at line 186 is caught at line 213 and
  re-raised as a 500. `Request.Definitions` models only the refusal of an
  empty `d`.
- The `/builder` HTML and JavaScript page (lines 218-349) is left out.
- `json.loads` is a parameter of the pass (`Directives.JsonParser`). It
  returns the parsed object as a header dictionary, or nothing when parsing
  fails. Left out: a JSON value that is not an object, and an object whose
  values are not all strings. Line 52 stores either as it is.
  - A falsy non-object (`null`, `false`, `0`, `""`, `[]`) is then never
    used: the guard at line 94 skips it at the next media line, and it is
    kept until the next `#EXTHTTP`.
  - A truthy non-object fails at line 95, where `.items()` is called
    outside any `try`.
  - A later `#EXTVLCOPT` tag that sets a header on a non-object raises at
    line 39 or 43. The `except` at line 44 catches that, so the tag only
    logs.
  - An object with a value that is not a string reaches `quote` at line 95,
    which fails on a number or other non-text value.
- The `except` branch of `#EXTVLCOPT` (lines 44-45) is not modelled. While
  the headers are a dictionary it never fires: a tag starting with
  `#EXTVLCOPT:` always holds `:`, and every later split is guarded by a
  membership test. It fires only on the non-dictionary values of the
  previous item, which the model leaves out.
- `print` logging (lines 45, 54, 125 and 214) is left out.
- The counter `lines_processed_for_current_playlist` (lines 152 and 157) is
  left out: it is never read.
- Non-ASCII whitespace is left out: `PyStr.IsSpace` is ASCII whitespace
  only. Python's `str.strip` also drops other Unicode whitespace.
- Non-ASCII case mapping is left out: `PyStr.Capitalize` changes the case
  of ASCII letters only.
- Percent.UnquoteQuote: the round trip is stated for ASCII text only. `quote`
  itself is modelled for every character, through its UTF-8 bytes.
- QueryParams.ParamRoundTrip: stated for an ASCII name and value only, because
  the `Unquote` partner is proved against `Quote` for ASCII text only.
- QueryParams.HeaderQueryRoundTrip: stated for ASCII header names and
  values only, for the same reason.
