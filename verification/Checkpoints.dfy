/** Computations that poll a context. A computation is described by the number of
    checkpoints it passes and the result it then has; running it against a
    context reports the first checkpoint that fails. */
module Checkpoints {
  import opened Base

  datatype PrepError =
    | Context(code: nat) | Retained(cause: nat) | InvalidBudget | CreationFailed
    | UnsupportedContentType | NotPreparable | InvalidConfig | BodyTooLarge

  /** What the n-th poll of the context reports. */
  type Script = nat -> Option<nat>

  datatype Outcome<+T> = Outcome(checks: nat, result: Result<T, PrepError>)

  function FirstError(script: Script, t: nat, n: nat): Option<nat>
    decreases n
  {
    if n == 0 then None else if script(t).Some? then script(t) else FirstError(script, t + 1, n - 1)
  }

  function Run<T>(script: Script, t: nat, o: Outcome<T>): Result<T, PrepError> {
    var e := FirstError(script, t, o.checks);
    if e.Some? then Failure(Context(e.value)) else o.result
  }

  /** One computation after another; the first failure ends it. */
  function Sequence<A, B>(a: Outcome<A>, b: Outcome<B>): Outcome<(A, B)> {
    if a.result.Failure? then Outcome(a.checks, Failure(a.result.error))
    else Outcome(a.checks + b.checks,
                 if b.result.Failure? then Failure(b.result.error) else Success((a.result.value, b.result.value)))
  }

  /** One computation after another that guards it. */
  function Then<A, B>(a: Outcome<A>, b: Outcome<B>): Outcome<B> {
    if a.result.Failure? then Outcome(a.checks, Failure(a.result.error)) else Outcome(a.checks + b.checks, b.result)
  }

  /** No checkpoint in a window fails. */
  predicate Clear(script: Script, t0: nat, t: nat) {
    t0 <= t && FirstError(script, t0, t - t0).None?
  }

  lemma {:induction false} FirstErrorSplit(script: Script, t: nat, a: nat, b: nat)
    ensures FirstError(script, t, a + b) ==
            if FirstError(script, t, a).Some? then FirstError(script, t, a) else FirstError(script, t + a, b)
    decreases a
  {
    if a > 0 && script(t).None? {
      FirstErrorSplit(script, t + 1, a - 1, b);
    }
  }

  lemma ClearExtends(script: Script, t0: nat, t: nat, n: nat)
    requires Clear(script, t0, t) && FirstError(script, t, n).None?
    ensures Clear(script, t0, t + n)
  {
    FirstErrorSplit(script, t0, t - t0, n);
  }

  /** A failure inside the window is the first one of the whole window. */
  lemma Hit(script: Script, t0: nat, t: nat, n: nat, total: nat)
    requires Clear(script, t0, t) && FirstError(script, t, n).Some? && t + n <= t0 + total
    ensures FirstError(script, t0, total) == FirstError(script, t, n)
  {
    FirstErrorSplit(script, t0, t - t0, n);
    FirstErrorSplit(script, t0, t - t0 + n, total - (t - t0 + n));
  }

  lemma RunSequence<A, B>(script: Script, t: nat, a: Outcome<A>, b: Outcome<B>)
    ensures Run(script, t, Sequence(a, b)) ==
            var ra, rb := Run(script, t, a), Run(script, t + a.checks, b);
            if ra.Failure? then Failure(ra.error) else if rb.Failure? then Failure(rb.error) else Success((ra.value, rb.value))
  {
    FirstErrorSplit(script, t, a.checks, b.checks);
  }

  /** A call that started at poll t0 and ended before poll t behaved as the
      outcome describes. */
  ghost predicate Follows<T>(script: Script, t0: nat, o: Outcome<T>, r: Result<T, PrepError>, t: nat) {
    r == Run(script, t0, o) && (r.Success? ==> t == t0 + o.checks)
  }

  lemma Failed<T>(script: Script, t0: nat, o: Outcome<T>, e: PrepError, t: nat)
    requires e.Context? && FirstError(script, t0, o.checks) == Some(e.code)
    ensures Follows(script, t0, o, Failure(e), t)
  {
  }

  lemma Finished<T>(script: Script, t0: nat, o: Outcome<T>, t: nat)
    requires Clear(script, t0, t) && t == t0 + o.checks
    ensures Follows(script, t0, o, o.result, t)
  {
  }

  /** A computation that follows after some checks that passed. */
  lemma Continues<T>(script: Script, t0: nat, t1: nat, o: Outcome<T>, r: Result<T, PrepError>, t: nat)
    requires Clear(script, t0, t1) && Follows(script, t1, o, r, t)
    ensures Follows(script, t0, Outcome(t1 - t0 + o.checks, o.result), r, t)
  {
    FirstErrorSplit(script, t0, t1 - t0, o.checks);
  }

  /** A step inside the window of a whole computation: everything before it
      passed, and its own checks still belong to the window. */
  ghost predicate Within(script: Script, t0: nat, total: nat, t: nat, checks: nat) {
    Clear(script, t0, t) && t + checks <= t0 + total
  }

  /** The step passed its checks, or met the first failing one of the window. */
  ghost predicate Stepped(script: Script, t0: nat, total: nat, t: nat, checks: nat, e: Option<PrepError>, t': nat) {
    if e.None? then Clear(script, t0, t') && t' == t + checks
    else e.value.Context? && FirstError(script, t0, total) == Some(e.value.code)
  }

  /** preparationCheckpoint, inside a window. */
  method Check(script: Script, t: nat, ghost t0: nat, ghost total: nat) returns (e: Option<PrepError>, t': nat)
    requires Within(script, t0, total, t, 1)
    ensures Stepped(script, t0, total, t, 1, e, t')
  {
    t' := t + 1;
    e := if script(t).Some? then Some(PrepError.Context(script(t).value)) else None;
    assert FirstError(script, t, 1) == script(t);
    if e.Some? {
      Hit(script, t0, t, 1, total);
    } else {
      ClearExtends(script, t0, t, 1);
    }
  }

  /** The polls of a loop that checks at every 64th index below n. */
  function Ticks(n: nat): nat {
    (n + 63) / 64
  }

  /** The polls at the head of iteration i of such a loop. */
  function Due(i: nat): nat {
    if i % 64 == 0 then 1 else 0
  }

  lemma TickStep(i: nat)
    ensures Ticks(i + 1) == Ticks(i) + Due(i)
  {
  }

  lemma TickMonotone(i: nat, j: nat)
    requires i <= j
    ensures Ticks(i) <= Ticks(j)
  {
  }

  method CheckDue(script: Script, i: nat, t: nat, ghost t0: nat, ghost total: nat) returns (e: Option<PrepError>, t': nat)
    requires Within(script, t0, total, t, Due(i))
    ensures Stepped(script, t0, total, t, Due(i), e, t')
  {
    e, t' := None, t;
    if i % 64 == 0 {
      e, t' := Check(script, t, t0, total);
    }
  }
}
