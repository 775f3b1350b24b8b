/** The calculator's two-slot result history: R (last result) and P (previous
    result). A top-level operation that ends with a value pushes it in; one that
    ends with no value leaves the history alone. */
module ResultMemory {
  import opened Wrappers

  datatype Memory<V> = Memory(last: V, prev: V)

  /** `update_results`: a value shifts R into P and becomes the new R. */
  function UpdateResults<V>(m: Memory<V>, result: Option<V>): (m': Memory<V>)
    ensures result.Some? ==> m'.last == result.value && m'.prev == m.last
    ensures result.None? ==> m' == m
  {
    match result
    case Some(v) => Memory(v, m.last)
    case None => m
  }

  /** The history after feeding it the outcomes of a series of top-level operations,
      oldest first. */
  function Replay<V>(m: Memory<V>, outcomes: seq<Option<V>>): Memory<V>
    decreases |outcomes|
  {
    if |outcomes| == 0 then m
    else UpdateResults(Replay(m, outcomes[..|outcomes| - 1]), outcomes[|outcomes| - 1])
  }

  /** The values among a series of outcomes, in order. */
  function Successes<V>(outcomes: seq<Option<V>>): (vs: seq<V>)
    ensures |vs| <= |outcomes|
    decreases |outcomes|
  {
    if |outcomes| == 0 then []
    else
      var init := Successes(outcomes[..|outcomes| - 1]);
      match outcomes[|outcomes| - 1]
      case Some(v) => init + [v]
      case None => init
  }

  /** Whatever interleaving of values and failures the operations produce, R holds
      the latest value and P the one before it; the starting slots survive only as
      long as fewer than two values have arrived. */
  lemma {:induction false} ReplayKeepsLastTwo<V>(m: Memory<V>, outcomes: seq<Option<V>>)
    ensures var vs := Successes(outcomes);
      var m' := Replay(m, outcomes);
      && (|vs| == 0 ==> m' == m)
      && (|vs| >= 1 ==> m'.last == vs[|vs| - 1])
      && (|vs| == 1 ==> m'.prev == m.last)
      && (|vs| >= 2 ==> m'.prev == vs[|vs| - 2])
    decreases |outcomes|
  {
    if |outcomes| > 0 {
      ReplayKeepsLastTwo(m, outcomes[..|outcomes| - 1]);
    }
  }
}
