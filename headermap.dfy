/**
 * The header dictionary the rewriter threads through a playlist. A Python
 * `dict` iterates in insertion order and assigning to a key that is already
 * present keeps that key where it was, so it is modelled as a sequence of
 * (name, value) entries with distinct names.
 *
 * It models `current_ext_headers` of `rewrite_m3u_links_streaming` in
 * `mediaflow_proxy/routes/playlist_builder.py`.
 */
module HeaderMap {
  import opened Wrappers

  type Entry = (string, string)

  function KeysOf(h: seq<Entry>): (ks: seq<string>)
    ensures |ks| == |h| && forall i :: 0 <= i < |h| ==> ks[i] == h[i].0
  {
    if h == [] then [] else [h[0].0] + KeysOf(h[1..])
  }

  predicate DistinctKeys(h: seq<Entry>) {
    forall i, j :: 0 <= i < j < |h| ==> h[i].0 != h[j].0
  }

  /** A `Dict[str, str]`, in iteration order. */
  type Headers = h: seq<Entry> | DistinctKeys(h) witness []

  /** `d.get(k)` */
  function Lookup(h: seq<Entry>, k: string): (r: Option<string>)
    ensures r.Some? <==> k in KeysOf(h)
    ensures r.Some? ==> exists i :: 0 <= i < |h| && h[i] == (k, r.value)
  {
    if h == [] then None
    else if h[0].0 == k then Some(h[0].1)
    else
      var r := Lookup(h[1..], k);
      assert KeysOf(h) == [h[0].0] + KeysOf(h[1..]);
      assert r.Some? ==> exists i :: 0 <= i < |h| && h[i] == (k, r.value) by {
        if r.Some? {
          var i :| 0 <= i < |h| - 1 && h[1..][i] == (k, r.value);
          assert h[i + 1] == (k, r.value);
        }
      }
      r
  }

  /** The position of the first entry named `k`. */
  function KeyIndex(h: seq<Entry>, k: string): (i: nat)
    requires k in KeysOf(h)
    ensures i < |h| && h[i].0 == k
    ensures forall j :: 0 <= j < i ==> h[j].0 != k
  {
    if h[0].0 == k then 0
    else
      assert KeysOf(h) == [h[0].0] + KeysOf(h[1..]);
      1 + KeyIndex(h[1..], k)
  }

  function PutEntry(h: seq<Entry>, k: string, v: string): seq<Entry> {
    if h == [] then [(k, v)]
    else if h[0].0 == k then [(k, v)] + h[1..]
    else [h[0]] + PutEntry(h[1..], k, v)
  }

  lemma PutEntryExisting(h: seq<Entry>, k: string, v: string)
    requires k in KeysOf(h)
    ensures PutEntry(h, k, v) == h[KeyIndex(h, k) := (k, v)]
  {
    PutEntryAt(h, KeyIndex(h, k), k, v);
  }

  /** Putting a key whose first occurrence is at `i` rewrites entry `i`. */
  lemma {:induction false} PutEntryAt(h: seq<Entry>, i: nat, k: string, v: string)
    requires i < |h| && h[i].0 == k
    requires forall j :: 0 <= j < i ==> h[j].0 != k
    ensures PutEntry(h, k, v) == h[i := (k, v)]
  {
    var t := h[1..];
    assert h == [h[0]] + t;
    if i == 0 {
      assert h[0 := (k, v)] == [(k, v)] + t;
    } else {
      assert h[0].0 != k;
      assert PutEntry(h, k, v) == [h[0]] + PutEntry(t, k, v);
      assert t[i - 1] == h[i];
      assert forall j :: 0 <= j < i - 1 ==> t[j].0 != k by {
        forall j | 0 <= j < i - 1 ensures t[j].0 != k {
          assert t[j] == h[j + 1];
        }
      }
      PutEntryAt(t, i - 1, k, v);
      UpdateCons(h[0], t, i - 1, (k, v));
    }
  }

  lemma UpdateCons(x: Entry, t: seq<Entry>, i: nat, e: Entry)
    requires i < |t|
    ensures ([x] + t)[i + 1 := e] == [x] + t[i := e]
  {
  }

  lemma {:induction false} PutEntryNew(h: seq<Entry>, k: string, v: string)
    requires k !in KeysOf(h)
    ensures PutEntry(h, k, v) == h + [(k, v)]
  {
    if h != [] {
      PutEntryNew(h[1..], k, v);
      assert h + [(k, v)] == [h[0]] + (h[1..] + [(k, v)]);
    }
  }

  /** `d[k] = v`: an existing key takes the new value in place; a new key goes last. */
  function Put(h: Headers, k: string, v: string): (r: Headers)
    ensures forall i :: 0 <= i < |h| && h[i].0 == k ==> r == h[i := (k, v)]
    ensures k !in KeysOf(h) ==> r == h + [(k, v)]
    ensures KeysOf(r) == if k in KeysOf(h) then KeysOf(h) else KeysOf(h) + [k]
    ensures Lookup(r, k) == Some(v)
    ensures forall k' :: k' != k ==> Lookup(r, k') == Lookup(h, k')
  {
    if k in KeysOf(h) then
      PutExisting(h, k, v);
      PutEntry(h, k, v)
    else
      PutNew(h, k, v);
      PutEntry(h, k, v)
  }

  lemma PutExisting(h: Headers, k: string, v: string)
    requires k in KeysOf(h)
    ensures var r := PutEntry(h, k, v);
      DistinctKeys(r) && KeysOf(r) == KeysOf(h) && Lookup(r, k) == Some(v)
      && (forall k' :: k' != k ==> Lookup(r, k') == Lookup(h, k'))
      && (forall i :: 0 <= i < |h| && h[i].0 == k ==> r == h[i := (k, v)])
  {
    PutEntryExisting(h, k, v);
    var i := KeyIndex(h, k);
    var r := h[i := (k, v)];
    assert KeysOf(r) == KeysOf(h);
    LookupAfterUpdate(h, i, v);
  }

  lemma PutNew(h: Headers, k: string, v: string)
    requires k !in KeysOf(h)
    ensures var r := PutEntry(h, k, v);
      DistinctKeys(r) && KeysOf(r) == KeysOf(h) + [k] && Lookup(r, k) == Some(v)
      && (forall k' :: k' != k ==> Lookup(r, k') == Lookup(h, k'))
      && r == h + [(k, v)]
  {
    PutEntryNew(h, k, v);
    var r := h + [(k, v)];
    assert KeysOf(r) == KeysOf(h) + [k];
    LookupAfterAppend(h, k, v);
  }

  lemma {:induction false} LookupAfterUpdate(h: Headers, i: nat, v: string)
    requires i < |h|
    ensures Lookup(h[i := (h[i].0, v)], h[i].0) == Some(v)
    ensures forall k' :: k' != h[i].0 ==> Lookup(h[i := (h[i].0, v)], k') == Lookup(h, k')
  {
    var k := h[i].0;
    var r := h[i := (k, v)];
    if i > 0 {
      assert r[0] == h[0];
      assert r[1..] == h[1..][i - 1 := (k, v)];
      LookupAfterUpdate(h[1..], i - 1, v);
    } else {
      assert r[1..] == h[1..];
    }
  }

  lemma {:induction false} LookupAfterAppend(h: seq<Entry>, k: string, v: string)
    requires k !in KeysOf(h)
    ensures Lookup(h + [(k, v)], k) == Some(v)
    ensures forall k' :: k' != k ==> Lookup(h + [(k, v)], k') == Lookup(h, k')
  {
    if h != [] {
      assert (h + [(k, v)])[1..] == h[1..] + [(k, v)];
      assert KeysOf(h) == [h[0].0] + KeysOf(h[1..]);
      LookupAfterAppend(h[1..], k, v);
    }
  }
}
