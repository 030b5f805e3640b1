/**
  The error-budget counter every LLM wrapper inherits (`BaseLLM`): a failure
  count, an availability flag and a fixed retry budget of three. Only the
  wrappers' failure paths touch it; nothing in the system resets it and
  nothing consults it before a call.
 */
module Health {

  const DefaultMaxRetries: int := 3

  datatype Health = Health(modelName: string, isAvailable: bool, errorCount: nat, maxRetries: int)

  /** `BaseLLM.__init__`. */
  function Fresh(modelName: string): (h: Health)
    ensures h.modelName == modelName
    ensures h.errorCount == 0 && h.isAvailable && h.maxRetries == 3
    ensures IsHealthy(h)
  {
    Health(modelName, true, 0, DefaultMaxRetries)
  }

  /** `is_healthy`. */
  predicate IsHealthy(h: Health) {
    h.isAvailable && h.errorCount < h.maxRetries
  }

  /** `record_error`: one more failure; the budget running out switches the instance off. */
  function RecordError(h: Health): (h': Health)
    ensures h'.errorCount == h.errorCount + 1
    ensures h'.modelName == h.modelName && h'.maxRetries == h.maxRetries
    ensures h'.errorCount >= h'.maxRetries ==> !h'.isAvailable
    ensures h'.isAvailable ==> h.isAvailable
    ensures h'.errorCount < h'.maxRetries ==> h'.isAvailable == h.isAvailable
  {
    var n := h.errorCount + 1;
    h.(errorCount := n, isAvailable := if n >= h.maxRetries then false else h.isAvailable)
  }

  /** `reset_errors`. */
  function ResetErrors(h: Health): (h': Health)
    ensures h'.errorCount == 0 && h'.isAvailable
    ensures h'.modelName == h.modelName && h'.maxRetries == h.maxRetries
    ensures IsHealthy(h') <==> h.maxRetries > 0
  {
    h.(errorCount := 0, isAvailable := true)
  }

  /** `n` consecutive calls of `record_error`. */
  function RecordErrors(h: Health, n: nat): Health
    decreases n
  {
    if n == 0 then h else RecordErrors(RecordError(h), n - 1)
  }

  /** The effect of `n` failures: the count grows by exactly `n`, the name and
      budget stay, and the flag survives only while the count is under budget. */
  lemma {:induction false} RecordErrorsEffect(h: Health, n: nat)
    ensures RecordErrors(h, n).errorCount == h.errorCount + n
    ensures RecordErrors(h, n).modelName == h.modelName
    ensures RecordErrors(h, n).maxRetries == h.maxRetries
    ensures RecordErrors(h, n).isAvailable
      <==> h.isAvailable && (n == 0 || h.errorCount + n < h.maxRetries)
    ensures IsHealthy(RecordErrors(h, n)) <==> h.isAvailable && h.errorCount + n < h.maxRetries
    decreases n
  {
    if n > 0 {
      RecordErrorsEffect(RecordError(h), n - 1);
    }
  }

  /** From a fresh instance, the instance is healthy after `n` failures exactly when `n < 3`:
      three failures switch it off and further failures keep it off. */
  lemma FreshHealthyIffFewerThanThreeErrors(modelName: string, n: nat)
    ensures IsHealthy(RecordErrors(Fresh(modelName), n)) <==> n < 3
    ensures n >= 3 ==> !RecordErrors(Fresh(modelName), n).isAvailable
  {
    RecordErrorsEffect(Fresh(modelName), n);
  }

  /** Once switched off, only `reset_errors` can switch an instance back on. */
  lemma {:induction false} UnavailableStaysUnavailable(h: Health, n: nat)
    requires !h.isAvailable
    ensures !RecordErrors(h, n).isAvailable && !IsHealthy(RecordErrors(h, n))
  {
    RecordErrorsEffect(h, n);
  }

  /** Resetting after any run of failures makes a default-budget instance healthy again. */
  lemma ResetRestoresHealth(modelName: string, n: nat)
    ensures IsHealthy(ResetErrors(RecordErrors(Fresh(modelName), n)))
    ensures ResetErrors(RecordErrors(Fresh(modelName), n)) == Fresh(modelName)
  {
    RecordErrorsEffect(Fresh(modelName), n);
  }
}
