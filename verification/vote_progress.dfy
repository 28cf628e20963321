/** The progress bar above each ballot step
    (src/modules/public/vote/components/VoteProgressBar.tsx). */
module VoteProgress {

  /** `total > 0 ? Math.min((current / total) * 100, 100) : 0`, on exact reals. */
  function Progress(current: int, total: int): (p: real)
    ensures total <= 0 ==> p == 0.0
    ensures p <= 100.0
    ensures 0 < total && current < total ==> p * (total as real) == (current as real) * 100.0
    ensures 0 < total <= current ==> p == 100.0
    ensures 0 <= current ==> 0.0 <= p
  {
    if total > 0 then
      var raw := (current as real / total as real) * 100.0;
      if raw < 100.0 then raw else 100.0
    else 0.0
  }

  /** More categories done never shows less progress. */
  lemma ProgressMonotone(a: int, b: int, total: int)
    requires a <= b
    ensures Progress(a, total) <= Progress(b, total)
  {
    if total > 0 {
      var t := total as real;
      assert (a as real / t) <= (b as real / t);
    }
  }

  /** On step `index + 1` of `n` the bar is partly filled, and full exactly on
      the last step. */
  lemma StepProgress(index: nat, n: nat)
    requires index < n
    ensures 0.0 < Progress(index + 1, n) <= 100.0
    ensures Progress(index + 1, n) == 100.0 <==> index + 1 == n
  {
    if index + 1 < n {
      var p := Progress(index + 1, n);
      assert p * (n as real) == ((index + 1) as real) * 100.0;
      assert ((index + 1) as real) * 100.0 < (n as real) * 100.0;
    }
  }
}
