/**
 Runs of the digester as function values, for proofs that follow a run without unfolding it.
 */
module DigestRuns {
  import opened DigestTokens

  /** `r(i, s)` is the outcome of the run from token `i` with stack `s`. The trigger keeps the
      definition of the run out of proofs that do not mention it. */
  ghost predicate IsRun(r: (nat, seq<Token>) -> seq<Token>, input: seq<Token>, env: Env) {
    forall i: nat, s {:trigger Run(input, i, s, env)} :: i <= |input| ==> r(i, s) == Run(input, i, s, env)
  }

  ghost function RunOf(input: seq<Token>, env: Env): (r: (nat, seq<Token>) -> seq<Token>)
    ensures IsRun(r, input, env)
    ensures r(0, []) == Normalized(input, env)
  {
    (i: nat, s: seq<Token>) => if i <= |input| then Run(input, i, s, env) else []
  }

  lemma PassRun(r: (nat, seq<Token>) -> seq<Token>, input: seq<Token>, i: nat, s: seq<Token>, env: Env, next: seq<Token>)
    requires IsRun(r, input, env)
    requires i < |input| && input[i].kind != Invalid && !HintOpens(s, input[i])
    requires next == Step(s, Renamed(input[i]), Place(i, i + 1), env)
    ensures r(i, s) == r(i + 1, next)
  {
    Pass(input, i, s, env, next);
  }

  lemma HintRun(r: (nat, seq<Token>) -> seq<Token>, input: seq<Token>, i: nat, s: seq<Token>, env: Env, next: seq<Token>)
    requires IsRun(r, input, env)
    requires i < |input| && input[i].kind != Invalid && HintOpens(s, input[i])
    requires next == if HintCloses(input, i + 1) then Drop(s, 1) else Step(s, input[i], Place(i, HintCalls(input, i + 1)), env)
    ensures r(i, s) == r(HintEnd(input, i + 1), next)
  {
    PassHint(input, i, s, env, next);
  }
}
