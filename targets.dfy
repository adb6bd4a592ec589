/**
 * Where a media URL is sent: the proxy endpoint chosen from the URL's text,
 * or the URL itself.
 *
 * Line numbers refer to `mediaflow_proxy/routes/playlist_builder.py`,
 * function `rewrite_m3u_links_streaming`.
 */
module Targets {
  import opened Wrappers
  import opened PyStr

  /** The URL shapes a media line can be given. */
  datatype Template = Unchanged | HlsManifest | VixCloud | MpdManifest

  /** A rule fires when the URL contains its needle. */
  datatype Rule = Rule(needle: string, template: Template)

  /** The password-mode rules, in the order they are tried. */
  const PasswordRules: seq<Rule> := [
    Rule("pluto.tv", Unchanged),
    Rule("vavoo.to", HlsManifest),
    Rule("vixsrc.to", VixCloud),
    Rule(".m3u8", HlsManifest),
    Rule(".mpd", MpdManifest),
    Rule(".php", HlsManifest)
  ]

  /** The position of the first rule whose needle occurs in `url`. */
  function FirstMatch(rules: seq<Rule>, url: string): (r: Option<nat>)
    ensures r.Some? ==> r.value < |rules| && Contains(url, rules[r.value].needle)
    ensures r.Some? ==> forall j :: 0 <= j < r.value ==> !Contains(url, rules[j].needle)
    ensures r.None? ==> forall j :: 0 <= j < |rules| ==> !Contains(url, rules[j].needle)
  {
    if rules == [] then None
    else if Contains(url, rules[0].needle) then Some(0)
    else match FirstMatch(rules[1..], url)
      case None => None
      case Some(k) => Some(k + 1)
  }

  function Build(t: Template, base: string, password: string, url: string): string {
    match t
    case Unchanged => url
    case HlsManifest => base + "/proxy/hls/manifest.m3u8?api_password=" + password + "&d=" + url
    case VixCloud => base + "/extractor/video?host=VixCloud" + "&redirect_stream=true&api_password=" + password + "&d=" + url
    case MpdManifest => base + "/proxy/mpd/manifest.m3u8?api_password=" + password + "&d=" + url
  }

  /** Lines 67-84, as written: a chain of `elif` tests. */
  function PasswordTarget(base: string, password: string, url: string): string {
    if Contains(url, "pluto.tv") then url
    else if Contains(url, "vavoo.to") then Build(HlsManifest, base, password, url)
    else if Contains(url, "vixsrc.to") then Build(VixCloud, base, password, url)
    else if Contains(url, ".m3u8") then Build(HlsManifest, base, password, url)
    else if Contains(url, ".mpd") then Build(MpdManifest, base, password, url)
    else if Contains(url, ".php") then Build(HlsManifest, base, password, url)
    else url
  }

  /** Lines 86-91: without a password everything but pluto.tv goes through `/proxy/m3u`. */
  function OpenTarget(base: string, url: string): string {
    if Contains(url, "pluto.tv") then url else base + "/proxy/m3u?url=" + url
  }

  /** The rule at position `k` is the first whose needle occurs in `url`. */
  lemma {:induction false} FirstMatchAt(rules: seq<Rule>, url: string, k: nat)
    requires k < |rules| && Contains(url, rules[k].needle)
    requires forall j :: 0 <= j < k ==> !Contains(url, rules[j].needle)
    ensures FirstMatch(rules, url) == Some(k)
    decreases k
  {
    if k > 0 {
      assert !Contains(url, rules[0].needle);
      FirstMatchAt(rules[1..], url, k - 1);
    }
  }

  /** The `elif` chain is the rule table tried in order, first match winning,
      with the URL left as it is when no rule matches. */
  lemma PasswordTargetIsFirstMatch(base: string, password: string, url: string)
    ensures PasswordTarget(base, password, url) ==
      match FirstMatch(PasswordRules, url)
      case None => url
      case Some(k) => Build(PasswordRules[k].template, base, password, url)
  {
    var rules := PasswordRules;
    assert rules[0].needle == "pluto.tv" && rules[1].needle == "vavoo.to" && rules[2].needle == "vixsrc.to";
    assert rules[3].needle == ".m3u8" && rules[4].needle == ".mpd" && rules[5].needle == ".php";
    if Contains(url, "pluto.tv") {
      FirstMatchAt(rules, url, 0);
    } else if Contains(url, "vavoo.to") {
      FirstMatchAt(rules, url, 1);
    } else if Contains(url, "vixsrc.to") {
      FirstMatchAt(rules, url, 2);
    } else if Contains(url, ".m3u8") {
      FirstMatchAt(rules, url, 3);
    } else if Contains(url, ".mpd") {
      FirstMatchAt(rules, url, 4);
    } else if Contains(url, ".php") {
      FirstMatchAt(rules, url, 5);
    }
  }
}
