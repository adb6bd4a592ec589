/**
 * The one pure step of downloading a playlist: every decoded line the HTTP
 * client hands over is stored with a line feed appended, and an empty line
 * is stored as the empty string. The download itself (the HTTP request,
 * status check and UTF-8 decoding) is not part of this model.
 *
 * Line numbers refer to `mediaflow_proxy/routes/playlist_builder.py`,
 * function `async_download_m3u_playlist`.
 */
module Fetch {
  import opened PyStr

  /** Line 123: the stored form of one decoded line. */
  function Shape(decoded: string): (line: string)
    ensures line == [] <==> decoded == []
    ensures line != [] ==> line[|line| - 1] == '\n' && line[..|line| - 1] == decoded
  {
    if decoded == [] then [] else decoded + "\n"
  }

  /** A decoded line without a line feed of its own is what the rewriter's
      `rstrip('\n')` recovers from the stored form. */
  lemma RStripShape(decoded: string)
    requires '\n' !in decoded
    ensures RStripChar(Shape(decoded), '\n') == decoded
  {
    if decoded != [] {
      var line := Shape(decoded);
      assert line[..|line| - 1] == decoded;
      assert decoded[|decoded| - 1] in decoded;
    }
  }

  /** The stored lines of a whole playlist, one per decoded line. */
  function Stored(decoded: seq<string>): (lines: seq<string>)
    ensures |lines| == |decoded|
    ensures forall i :: 0 <= i < |decoded| ==> lines[i] == Shape(decoded[i])
  {
    seq(|decoded|, i requires 0 <= i < |decoded| => Shape(decoded[i]))
  }

  /** Lines 113-123: the lines of the playlist, one stored line per decoded line. */
  method CollectLines(decoded: seq<string>) returns (lines: seq<string>)
    ensures lines == Stored(decoded)
  {
    lines := [];
    for i := 0 to |decoded|
      invariant |lines| == i
      invariant forall k :: 0 <= k < i ==> lines[k] == Shape(decoded[k])
    {
      var decodedLine := decoded[i];
      lines := lines + [if decodedLine != [] then decodedLine + "\n" else []];
    }
    assert lines == Stored(decoded);
  }
}
