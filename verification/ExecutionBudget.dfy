/** The budget of one run. */
module ExecutionBudget {

  datatype Budget = Budget(
    maxLLMCalls: int, llmCallsUsed: int, maxIterations: int, iterationsUsed: int,
    timeoutMs: int, startedAt: int)

  datatype Remaining = Remaining(timeMs: int, llmCalls: int, iterations: int)

  function Max(a: int, b: int): int {
    if a < b then b else a
  }

  function Min(a: int, b: int): int {
    if a < b then a else b
  }

  predicate IsBudgetExceeded(b: Budget, now: int) {
    || b.llmCallsUsed >= b.maxLLMCalls
    || b.iterationsUsed >= b.maxIterations
    || now - b.startedAt >= b.timeoutMs
  }

  function BudgetRemaining(b: Budget, now: int): Remaining {
    Remaining(
      Max(0, b.timeoutMs - (now - b.startedAt)),
      Max(0, b.maxLLMCalls - b.llmCallsUsed),
      Max(0, b.maxIterations - b.iterationsUsed))
  }

  ghost predicate SameLimits(b0: Budget, b1: Budget) {
    b1 == b0.(llmCallsUsed := b1.llmCallsUsed, iterationsUsed := b1.iterationsUsed)
  }
}
