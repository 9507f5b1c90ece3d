/** Small value types shared by every module of the bot model. */
module Common {

  /** Python's `None` / a present value. */
  datatype Option<+T> = None | Some(value: T) {
    function GetOr(default: T): T {
      match this
      case Some(v) => v
      case None => default
    }
  }

  /** A call that either returns a value or raises; `Err` carries the exception's kind. */
  datatype Result<+T> = Ok(value: T) | Err(error: string)

  /** Outcome of a call into an external generator (a model, an HTTP service). */
  datatype Outcome = Produced(text: string) | Failed

  function Sum(xs: seq<int>): int {
    if xs == [] then 0 else xs[0] + Sum(xs[1..])
  }

  lemma {:induction false} SumAppend(xs: seq<int>, x: int)
    ensures Sum(xs + [x]) == Sum(xs) + x
  {
    if xs == [] {
      assert xs + [x] == [x];
    } else {
      assert (xs + [x])[1..] == xs[1..] + [x];
      SumAppend(xs[1..], x);
    }
  }

  /**
   * The sleeps a `while left > 0: sleep(min(step, left))`-style loop performs
   * for `total` seconds: full steps except possibly the last, summing to
   * the total (nothing for a total of zero or less).
   */
  predicate SleptInChunks(slept: seq<int>, total: int, step: int) {
    && (forall i :: 0 <= i < |slept| ==> 0 < slept[i] <= step)
    && (forall i :: 0 <= i < |slept| - 1 ==> slept[i] == step)
    && Sum(slept) == Max(total, 0)
  }

  function Max(a: int, b: int): int { if a < b then b else a }

  /** Python's `s[:k]` for any integer k (a negative k counts from the end). */
  function PyPrefix<T>(s: seq<T>, k: int): (r: seq<T>)
    ensures |r| <= |s| && r == s[..|r|]
    ensures 0 <= k ==> |r| == if k < |s| then k else |s|
    ensures k < 0 ==> |r| == Max(|s| + k, 0)
  {
    if 0 <= k then (if k < |s| then s[..k] else s)
    else if |s| + k < 0 then [] else s[..|s| + k]
  }

  /**
   * The `since_id` both Twitter bots send for a stored cursor: only for a
   * truthy one (`if since_id:` / `if last_seen_id:`), so a stored 0 counts
   * as none.
   */
  function SinceParam(cursor: Option<int>): (r: Option<int>)
    ensures r.Some? <==> cursor.Some? && cursor.value != 0
    ensures r.Some? ==> r == cursor
  {
    if cursor.Some? && cursor.value != 0 then cursor else None
  }
}
