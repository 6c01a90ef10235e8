/**
 * Rounds driven by a sequence of round keys.  The cipher applies its round to the state
 * once per key, first key first; the inverse cipher applies its round once per key, last
 * key first.  The lemmas hold for any pair of rounds, so they are stated over round
 * functions passed as values.
 */
module Rounds {
  import opened Blocks

  /** A round: the new state from the state and a round key. */
  type Round = (Block, Block) -> Block

  /** `f` applied with ks[0], then ks[1], and so on. */
  function Forward(f: Round, s: Block, ks: seq<Block>): Block
    decreases |ks|
  {
    if ks == [] then s else f(Forward(f, s, ks[..|ks| - 1]), ks[|ks| - 1])
  }

  /** `g` applied with the last key of ks first and ks[0] last. */
  function Backward(g: Round, s: Block, ks: seq<Block>): Block
    decreases |ks|
  {
    if ks == [] then s else g(Backward(g, s, ks[1..]), ks[0])
  }

  /** One more forward round, with key ks[i]: the loop step of the cipher. */
  lemma ForwardStep(f: Round, s: Block, ks: seq<Block>, lo: nat, i: nat)
    requires lo <= i < |ks|
    ensures Forward(f, s, ks[lo..i + 1]) == f(Forward(f, s, ks[lo..i]), ks[i])
  {
    assert ks[lo..i + 1][..i - lo] == ks[lo..i];
  }

  /** One more backward round, with key ks[i]: the loop step of the inverse cipher. */
  lemma BackwardStep(g: Round, s: Block, ks: seq<Block>, i: nat, hi: nat)
    requires i < hi <= |ks|
    ensures Backward(g, s, ks[i..hi]) == g(Backward(g, s, ks[i + 1..hi]), ks[i])
  {
    assert ks[i..hi][1..] == ks[i + 1..hi];
  }

  /** Backward starts with the last key. */
  lemma {:induction false} BackwardLast(g: Round, s: Block, ks: seq<Block>)
    requires ks != []
    ensures Backward(g, s, ks) == Backward(g, g(s, ks[|ks| - 1]), ks[..|ks| - 1])
    decreases |ks|
  {
    if |ks| > 1 {
      var rest := ks[1..];
      BackwardLast(g, s, rest);
      assert rest[..|rest| - 1] == ks[..|ks| - 1][1..];
      assert rest[|rest| - 1] == ks[|ks| - 1];
    }
  }

  /** If `g` undoes `f` as seen through `t`, Backward with the same keys undoes Forward. */
  lemma {:induction false} BackwardUndoesForward(f: Round, g: Round, t: Block -> Block, s: Block, ks: seq<Block>)
    requires forall x, k :: g(t(f(x, k)), k) == t(x)
    ensures Backward(g, t(Forward(f, s, ks)), ks) == t(s)
    decreases |ks|
  {
    if ks != [] {
      var init, last := ks[..|ks| - 1], ks[|ks| - 1];
      var x := Forward(f, s, init);
      calc {
        Backward(g, t(Forward(f, s, ks)), ks);
        Backward(g, t(f(x, last)), ks);
        { BackwardLast(g, t(f(x, last)), ks); }
        Backward(g, g(t(f(x, last)), last), init);
        Backward(g, t(x), init);
        { BackwardUndoesForward(f, g, t, s, init); }
        t(s);
      }
    }
  }

  /** A map `t` that turns rounds `g` into rounds `h` turns the whole backward pass with `g`
    * into the backward pass with `h`. */
  lemma {:induction false} BackwardThrough(g: Round, h: Round, t: Block -> Block, s: Block, ks: seq<Block>)
    requires forall x, k :: h(t(x), k) == t(g(x, k))
    ensures Backward(h, t(s), ks) == t(Backward(g, s, ks))
    decreases |ks|
  {
    if ks != [] {
      BackwardThrough(g, h, t, s, ks[1..]);
    }
  }
}
