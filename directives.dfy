/**
 * The two header-carrying playlist tags: `#EXTVLCOPT:<key>=<value>` sets one
 * header, `#EXTHTTP:<json object>` replaces them all.
 *
 * Line numbers refer to `mediaflow_proxy/routes/playlist_builder.py`,
 * function `rewrite_m3u_links_streaming`.
 */
module Directives {
  import opened Wrappers
  import opened PyStr
  import opened HeaderMap

  /** What `json.loads` yields for a `#EXTHTTP` payload: the decoded header
      object, or `None` when it raises. The parser itself is not modelled. */
  type JsonParser = string -> Option<Headers>

  /** The character at position `i` of `s` in header-name case: upper case at the
      start and after each `-`, lower case everywhere else. */
  function TitleAt(s: string, i: nat): char
    requires i < |s|
  {
    if i == 0 || s[i - 1] == '-' then Upper(s[i]) else Lower(s[i])
  }

  function CapitalizeAll(ws: seq<string>): (r: seq<string>)
    ensures |r| == |ws| && forall i :: 0 <= i < |ws| ==> r[i] == Capitalize(ws[i])
  {
    seq(|ws|, i requires 0 <= i < |ws| => Capitalize(ws[i]))
  }

  /** Within one word, `capitalize` agrees with header-name case. */
  lemma CapitalizedWord(p: string)
    requires '-' !in p
    ensures forall i :: 0 <= i < |p| ==> Capitalize(p)[i] == TitleAt(p, i)
  {
    forall i | 0 <= i < |p| ensures Capitalize(p)[i] == TitleAt(p, i) {
      if i > 0 {
        assert p[i - 1] != '-';
      }
    }
  }

  lemma TitleAtFirstWord(p: string, rest: string, i: nat)
    requires i < |p|
    ensures TitleAt(p + "-" + rest, i) == TitleAt(p, i)
  {
    var s := p + "-" + rest;
    assert s[i] == p[i];
    if i > 0 {
      assert s[i - 1] == p[i - 1];
    }
  }

  lemma TitleAtDash(p: string, rest: string)
    ensures TitleAt(p + "-" + rest, |p|) == '-'
  {
    assert (p + "-" + rest)[|p|] == '-';
  }

  lemma TitleAtLaterWords(p: string, rest: string, i: nat)
    requires |p| < i < |p| + 1 + |rest|
    ensures TitleAt(p + "-" + rest, i) == TitleAt(rest, i - |p| - 1)
  {
    var s := p + "-" + rest;
    var k := i - |p| - 1;
    assert s[i] == rest[k];
    if k > 0 {
      assert s[i - 1] == rest[k - 1];
    } else {
      assert s[i - 1] == '-';
    }
  }

  lemma {:induction false} JoinCapitalized(parts: seq<string>)
    requires |parts| > 0
    requires forall i :: 0 <= i < |parts| ==> '-' !in parts[i]
    ensures |Join(CapitalizeAll(parts), '-')| == |Join(parts, '-')|
    ensures forall i :: 0 <= i < |Join(parts, '-')| ==>
              Join(CapitalizeAll(parts), '-')[i] == TitleAt(Join(parts, '-'), i)
    decreases |parts|
  {
    var p := parts[0];
    var caps := CapitalizeAll(parts);
    CapitalizedWord(p);
    if |parts| == 1 {
      assert Join(parts, '-') == p && Join(caps, '-') == Capitalize(p);
    } else {
      var tail := parts[1..];
      assert parts == [p] + tail;
      assert caps == [Capitalize(p)] + CapitalizeAll(tail);
      JoinCons(p, tail, '-');
      JoinCons(Capitalize(p), CapitalizeAll(tail), '-');
      JoinCapitalized(tail);
      TitledCons(p, Join(tail, '-'), Capitalize(p), Join(CapitalizeAll(tail), '-'));
    }
  }

  /** Two runs of text in header-name case joined by a dash are in header-name
      case as a whole. */
  lemma TitledCons(p: string, rest: string, cp: string, crest: string)
    requires |cp| == |p| && forall i :: 0 <= i < |p| ==> cp[i] == TitleAt(p, i)
    requires |crest| == |rest| && forall i :: 0 <= i < |rest| ==> crest[i] == TitleAt(rest, i)
    ensures |cp + "-" + crest| == |p + "-" + rest|
    ensures forall i :: 0 <= i < |p + "-" + rest| ==>
              (cp + "-" + crest)[i] == TitleAt(p + "-" + rest, i)
  {
    var s := p + "-" + rest;
    var t := cp + "-" + crest;
    forall i | 0 <= i < |s| ensures t[i] == TitleAt(s, i) {
      if i < |p| {
        assert t[i] == cp[i];
        TitleAtFirstWord(p, rest, i);
      } else if i == |p| {
        assert t[i] == '-';
        TitleAtDash(p, rest);
      } else {
        assert t[i] == crest[i - |p| - 1];
        TitleAtLaterWords(p, rest, i);
      }
    }
  }

  /** Line 42: the suffix is split at its dashes, each word is capitalised,
      and the words are joined again with dashes. The name keeps the suffix's
      length and dashes; each dash-separated word starts upper case and goes
      on lower case. */
  function HeaderName(suffix: string): (r: string)
    ensures |r| == |suffix|
    ensures forall i :: 0 <= i < |suffix| ==> r[i] == TitleAt(suffix, i)
  {
    JoinSplit(suffix, '-');
    JoinCapitalized(Split(suffix, '-'));
    Join(CapitalizeAll(Split(suffix, '-')), '-')
  }

  /** Lines 29-43: the one header a `#EXTVLCOPT:` tag sets, given its text
      after the first `:`; `None` when the option has no `=` or its key does
      not start with `http-`. */
  function VlcOptHeader(option: string): (r: Option<Entry>)
    ensures r.Some? ==> '=' in option && StartsWith(Strip(Before(option, '=')), "http-")
  {
    if '=' !in option then None
    else
      var key := Strip(Before(option, '='));
      var value := Strip(After(option, '='));
      if key == "http-header" && ':' in value then
        assert key[..5] == "http-";
        Some((Strip(Before(value, ':')), Strip(After(value, ':'))))
      else if StartsWith(key, "http-") then
        Some((HeaderName(key[5..]), value))
      else None
  }

  /** The headers after a `#EXTVLCOPT:` tag: the header it names is set, and
      when it names none the headers are left exactly as they were. */
  function VlcOptUpdate(h: Headers, option: string): (r: Headers)
    ensures '=' !in option || !StartsWith(Strip(Before(option, '=')), "http-") ==> r == h
  {
    match VlcOptHeader(option)
    case Some((name, value)) => Put(h, name, value)
    case None => h
  }

  /** Lines 47-55: `#EXTHTTP:` replaces the headers by the parsed object, or
      empties them when parsing fails. */
  function ExtHttpUpdate(payload: string, parse: JsonParser): Headers
  {
    match parse(payload)
    case Some(parsed) => parsed
    case None => []
  }

  /** `#EXTVLCOPT:http-header=<name>:<value>` sets the trimmed `name` to the
      trimmed `value` (the name split off at the first `:`). */
  lemma VlcOptHttpHeader(name: string, value: string)
    requires ':' !in name
    ensures VlcOptHeader("http-header=" + name + ":" + value) == Some((Strip(name), Strip(value)))
  {
    var option := "http-header=" + name + ":" + value;
    HttpHeaderText(name, value, option);
    HttpHeaderOption(option);
  }

  lemma HttpHeaderText(name: string, value: string, option: string)
    requires ':' !in name && option == "http-header=" + name + ":" + value
    ensures '=' in option && Strip(Before(option, '=')) == "http-header"
    ensures var v := Strip(After(option, '='));
      ':' in v && Strip(Before(v, ':')) == Strip(name) && Strip(After(v, ':')) == Strip(value)
  {
    var rest := name + [':'] + value;
    OptionShape(name, value);
    SplitAt("http-header", '=', rest);
    HttpHeaderTrimmed();
    SplitHeaderValue(name, value);
  }

  lemma OptionShape(name: string, value: string)
    ensures "http-header=" + name + ":" + value == "http-header" + ['='] + (name + [':'] + value)
  {
  }

  lemma HttpHeaderTrimmed()
    ensures Strip("http-header") == "http-header"
  {
    StripUnique("http-header", 0, 11);
  }

  /** An option keyed `http-header` whose value holds a `:` sets the header
      named by the value's text before that `:`. */
  lemma HttpHeaderOption(option: string)
    requires '=' in option && Strip(Before(option, '=')) == "http-header"
    requires ':' in Strip(After(option, '='))
    ensures var v := Strip(After(option, '='));
      VlcOptHeader(option) == Some((Strip(Before(v, ':')), Strip(After(v, ':'))))
  {
  }

  /** The `Name: Value` text of `http-header`, once trimmed, splits back into
      the trimmed name and the trimmed value. */
  lemma SplitHeaderValue(name: string, value: string)
    requires ':' !in name
    ensures var v := Strip(name + [':'] + value);
      ':' in v && Strip(Before(v, ':')) == Strip(name) && Strip(After(v, ':')) == Strip(value)
  {
    StripAround(name, ':', value);
    var ln := LStrip(name);
    assert ':' !in ln;
    SplitAt(ln, ':', RStrip(value));
    StripLStrip(name);
    StripRStrip(value);
  }

  /** `http-<suffix>` is already trimmed, and the header name comes from `suffix`. */
  lemma PrefixedKey(suffix: string)
    requires '=' !in suffix
    requires suffix == [] || !IsSpace(suffix[|suffix| - 1])
    ensures var key := "http-" + suffix;
      '=' !in key && Strip(key) == key && StartsWith(key, "http-") && key[5..] == suffix
      && (key == "http-header" ==> suffix == "header")
  {
    PrefixText(suffix);
    PrefixedKeyTrimmed(suffix);
  }

  lemma PrefixText(suffix: string)
    requires '=' !in suffix
    ensures var key := "http-" + suffix;
      '=' !in key && StartsWith(key, "http-") && key[5..] == suffix
      && (key == "http-header" ==> suffix == "header")
  {
    var key := "http-" + suffix;
    assert key[..5] == "http-" && key[5..] == suffix;
  }

  lemma PrefixedKeyTrimmed(suffix: string)
    requires suffix == [] || !IsSpace(suffix[|suffix| - 1])
    ensures Strip("http-" + suffix) == "http-" + suffix
  {
    var key := "http-" + suffix;
    assert key[0] == 'h';
    assert key[|key| - 1] == if suffix == [] then '-' else suffix[|suffix| - 1];
    StripUnique(key, 0, |key|);
  }

  /** `#EXTVLCOPT:http-<suffix>=<value>` sets the header named from `suffix` to
      the trimmed `value`; this includes `http-header` whose value has no `:`,
      which sets `Header`. */
  lemma VlcOptHttpPrefixed(suffix: string, value: string)
    requires '=' !in suffix
    requires suffix == [] || !IsSpace(suffix[|suffix| - 1])
    requires suffix == "header" ==> ':' !in Strip(value)
    ensures VlcOptHeader("http-" + suffix + "=" + value) == Some((HeaderName(suffix), Strip(value)))
  {
    var key := "http-" + suffix;
    PrefixedKey(suffix);
    SplitAt(key, '=', value);
  }
}
