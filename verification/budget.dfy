/** The token budget of `format_messages`: what is left for code once the
    mandatory parts are counted, and the loop that evicts whole code-context
    entries from the front of the dict until the rest fits. */
module Budget {
  import opened Results
  import opened OrderedMap

  /** `sum(token_counter(code) for code in code_context.values())`. */
  function TokenSum(d: seq<Entry>, tc: string -> nat): nat {
    if d == [] then 0 else tc(d[0].code) + TokenSum(d[1..], tc)
  }

  /** No entry counts more than the whole sum, and the sum is zero exactly
      when every entry counts zero. */
  lemma {:induction false} TokenSumBounds(d: seq<Entry>, tc: string -> nat)
    ensures forall i :: 0 <= i < |d| ==> tc(d[i].code) <= TokenSum(d, tc)
    ensures TokenSum(d, tc) == 0 <==> forall i :: 0 <= i < |d| ==> tc(d[i].code) == 0
  {
    if d != [] {
      TokenSumBounds(d[1..], tc);
      assert forall i :: 1 <= i < |d| ==> d[1..][i - 1] == d[i];
    }
  }

  /** The token sum of a concatenation is the sum of the token sums: each
      entry is counted once, whatever map it sits in. */
  lemma {:induction false} TokenSumAppend(a: seq<Entry>, b: seq<Entry>, tc: string -> nat)
    ensures TokenSum(a + b, tc) == TokenSum(a, tc) + TokenSum(b, tc)
  {
    if a == [] {
      assert a + b == b;
    } else {
      assert (a + b)[1..] == a[1..] + b;
      TokenSumAppend(a[1..], b, tc);
    }
  }

  /** Dropping entries from the front never adds tokens. */
  lemma TokenSumSuffix(d: seq<Entry>, k: nat, tc: string -> nat)
    requires k <= |d|
    ensures TokenSum(d[k..], tc) <= TokenSum(d, tc)
  {
    assert d == d[..k] + d[k..];
    TokenSumAppend(d[..k], d[k..], tc);
  }

  /** `available_tokens`: the limit minus the tokens of the base prompt, of
      the user input and of the last step. It may be negative. */
  function Available(sendTokenLimit: int, baseTokens: nat, inputTokens: nat, stepTokens: nat): (r: int)
    ensures r <= sendTokenLimit
    ensures r >= 0 <==> baseTokens + inputTokens + stepTokens <= sendTokenLimit
  {
    sendTokenLimit - baseTokens - inputTokens - stepTokens
  }

  /** The eviction loop of `format_messages`: while the code's tokens exceed
      `available`, take the first key with `next(iter(code_context))` and
      pop it. The result is the longest suffix of the map that fits; when
      `available` is negative no suffix fits, the map runs empty and `next`
      raises StopIteration. */
  method FitToBudget(ctx: seq<Entry>, tc: string -> nat, available: int) returns (r: Result<seq<Entry>>)
    ensures r.Ok? <==> available >= 0
    ensures r.Err? ==> r.error == StopIteration
    ensures r.Ok? ==> |r.value| <= |ctx| && r.value == ctx[|ctx| - |r.value|..]
    ensures r.Ok? ==> TokenSum(r.value, tc) <= available
    ensures r.Ok? ==> forall j :: 0 <= j < |ctx| - |r.value| ==> TokenSum(ctx[j..], tc) > available
  {
    var codeContext := ctx;
    var tokens := TokenSum(ctx, tc);
    ghost var evicted := 0;
    while tokens > available
      invariant evicted <= |ctx| && codeContext == ctx[evicted..]
      invariant tokens == TokenSum(codeContext, tc)
      invariant forall j :: 0 <= j < evicted ==> TokenSum(ctx[j..], tc) > available
      decreases |codeContext|
    {
      if codeContext == [] {
        return Err(StopIteration);
      }
      tokens := tokens - tc(codeContext[0].code);
      codeContext := codeContext[1..];
      evicted := evicted + 1;
    }
    return Ok(codeContext);
  }
}
