/**
 * A row of `n` marks numbered from 1, lit up to a level: the progress bars of the two
 * sign-up wizards (lit up to the current step) and the star row of the feedback dialog
 * (lit up to the chosen rating) both draw mark s lit exactly when s <= level.
 */
module Gauge {

  /** The marks of an `n`-mark row at `level`: mark s (from 1) is lit when s <= level. */
  function Marks(level: int, n: nat): (lit: seq<bool>)
    ensures |lit| == n
    ensures forall i :: 0 <= i < n ==> (lit[i] <==> i + 1 <= level)
  {
    seq(n, i => i + 1 <= level)
  }

  /** Number of lit marks. */
  function CountLit(lit: seq<bool>): nat
  {
    if lit == [] then 0 else CountLit(lit[..|lit| - 1]) + (if lit[|lit| - 1] then 1 else 0)
  }

  /** The row shows its level: at level k of n marks, exactly min(max(k, 0), n) are lit. */
  lemma {:induction false} MarksShowLevel(level: int, n: nat)
    ensures CountLit(Marks(level, n)) == if level < 0 then 0 else if level < n then level else n
    decreases n
  {
    if n > 0 {
      var lit := Marks(level, n);
      assert lit[..n - 1] == Marks(level, n - 1);
      MarksShowLevel(level, n - 1);
    }
  }
}
