/**
 * A left-to-right pass over a playlist's lines that yields exactly one line
 * for each line it reads and threads a state from each line to the next.
 * The step is a parameter, so what is proved here holds for any step.
 *
 * It is the shape of the `for` loop of `rewrite_m3u_links_streaming` in
 * `mediaflow_proxy/routes/playlist_builder.py`.
 */
module LineFold {
  /** The lines yielded for `lines`, the pass starting in state `s`. */
  function Outputs<S>(step: (S, string) -> (string, S), s: S, lines: seq<string>): (r: seq<string>)
    ensures |r| == |lines|
    decreases |lines|
  {
    if lines == [] then []
    else
      var (out, s') := step(s, lines[0]);
      [out] + Outputs(step, s', lines[1..])
  }

  /** The state after `lines`, the pass starting in state `s`. */
  function StateAfter<S>(step: (S, string) -> (string, S), s: S, lines: seq<string>): S
    decreases |lines|
  {
    if lines == [] then s else StateAfter(step, step(s, lines[0]).1, lines[1..])
  }

  /** Reading one more line moves the state by one step. */
  lemma {:induction false} StateSnoc<S>(step: (S, string) -> (string, S), s: S, lines: seq<string>, i: nat)
    requires i < |lines|
    ensures StateAfter(step, s, lines[..i + 1]) == step(StateAfter(step, s, lines[..i]), lines[i]).1
    decreases i
  {
    if i > 0 {
      assert lines[..i + 1][1..] == lines[1..][..i];
      assert lines[..i][1..] == lines[1..][..i - 1];
      StateSnoc(step, step(s, lines[0]).1, lines[1..], i - 1);
    } else {
      assert lines[..1][1..] == [];
      assert lines[..0] == [];
    }
  }

  /** Output line `i` is the step's output for input line `i` in the state
      the pass has reached there. */
  lemma {:induction false} OutputAt<S>(step: (S, string) -> (string, S), s: S, lines: seq<string>, i: nat)
    requires i < |lines|
    ensures Outputs(step, s, lines)[i] == step(StateAfter(step, s, lines[..i]), lines[i]).0
    decreases i
  {
    if i > 0 {
      OutputAt(step, step(s, lines[0]).1, lines[1..], i - 1);
      assert lines[..i][1..] == lines[1..][..i - 1];
    } else {
      assert lines[..0] == [];
    }
  }

  /** The pass over `lines` from state `s`, resumed after its first `i` lines. */
  lemma {:induction false} OutputsSplit<S>(step: (S, string) -> (string, S), s: S, lines: seq<string>, i: nat)
    requires i <= |lines|
    ensures Outputs(step, s, lines) ==
      Outputs(step, s, lines[..i]) + Outputs(step, StateAfter(step, s, lines[..i]), lines[i..])
    decreases i
  {
    if i > 0 {
      var s' := step(s, lines[0]).1;
      OutputsSplit(step, s', lines[1..], i - 1);
      assert lines[..i][1..] == lines[1..][..i - 1];
      assert lines[1..][i - 1..] == lines[i..];
    } else {
      assert lines[..0] == [] && lines[0..] == lines;
    }
  }

  /** Lines whose step leaves every state as it is do not move the pass. */
  lemma {:induction false} StateKept<S>(step: (S, string) -> (string, S), s: S, lines: seq<string>, i: nat, j: nat)
    requires i <= j <= |lines|
    requires forall k, t :: i <= k < j ==> step(t, lines[k]).1 == t
    ensures StateAfter(step, s, lines[..j]) == StateAfter(step, s, lines[..i])
    decreases j
  {
    if i < j {
      StateKept(step, s, lines, i, j - 1);
      StateSnoc(step, s, lines, j - 1);
    }
  }

  /** Once the pass is in state `v` after line `i`, lines whose step keeps `v`
      keep the pass there. */
  lemma {:induction false} StateStays<S>(step: (S, string) -> (string, S), s: S, lines: seq<string>, i: nat, j: nat, v: S)
    requires i < j <= |lines| && StateAfter(step, s, lines[..i + 1]) == v
    requires forall k :: i < k < j ==> step(v, lines[k]).1 == v
    ensures StateAfter(step, s, lines[..j]) == v
    decreases j
  {
    if i + 1 < j {
      StateStays(step, s, lines, i, j - 1, v);
      StateSnoc(step, s, lines, j - 1);
    }
  }
}
