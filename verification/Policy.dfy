/** The hard limits of one agent run: budgets and the rule against repeating one call. */
module Policy {
  import opened Options

  datatype Budget = Budget(
    maxSteps: nat,
    maxLlmCalls: nat,
    maxToolCalls: nat,
    maxSameToolCalls: nat,
    maxTokens: nat,
    maxCostCents: nat)
  {
    /** Configured budgets are positive. */
    predicate Positive() {
      && maxSteps >= 1 && maxLlmCalls >= 1 && maxToolCalls >= 1
      && maxSameToolCalls >= 1 && maxTokens >= 1 && maxCostCents >= 1
    }
  }

  datatype StopReason =
    | Homogenisation
    | ToolCallBudget
    | StepBudget
    | LlmCallBudget
    | TokenBudget
    | CostBudget
    | InvalidArguments
    | Interrupted
  {
    /** The reasons a policy itself gives; the other two come from the run loop. */
    predicate OfPolicy() {
      !InvalidArguments? && !Interrupted?
    }

    /** The reasons a single call gives. */
    predicate OfCall() {
      Homogenisation? || ToolCallBudget? || InvalidArguments?
    }
  }

  /** What the digest of a call is taken from; two calls are alike when these three agree. */
  datatype Signature = Signature(tool: string, args: string, result: string)

  /** Length of the run of equal elements at the end of a sequence. */
  function ConstantSuffix<T(==)>(s: seq<T>): (n: nat)
    ensures n <= |s|
  {
    if |s| < 2 then |s|
    else if s[|s| - 1] == s[|s| - 2] then 1 + ConstantSuffix(s[..|s| - 1])
    else 1
  }

  /** `ConstantSuffix` is the largest n such that the last n elements are all equal. */
  lemma {:induction false} ConstantSuffixIsMaximal<T>(s: seq<T>)
    ensures
      var n := ConstantSuffix(s);
      && (forall i, j :: |s| - n <= i < |s| && |s| - n <= j < |s| ==> s[i] == s[j])
      && (n < |s| ==> n > 0 && s[|s| - n - 1] != s[|s| - 1])
  {
    if |s| >= 2 {
      ConstantSuffixIsMaximal(s[..|s| - 1]);
    }
  }

  class AgentPolicy {
    const budget: Budget
    var steps: nat
    var llmCalls: nat
    var toolCalls: nat
    var tokensIn: int
    var tokensOut: int
    var costCents: int
    var cacheHitTokens: int
    var cacheMissTokens: int
    var preloaded: nat
    var repeated: nat
    var lastSignature: Option<Signature>
    var stopReason: Option<StopReason>
    /** The signature of every counted tool call, oldest first. */
    ghost var signatures: seq<Signature>

    constructor (budget: Budget)
      ensures this.budget == budget
      ensures steps == llmCalls == toolCalls == preloaded == 0
      ensures tokensIn == tokensOut == costCents == 0
      ensures stopReason == None && signatures == []
      ensures Valid()
      ensures budget.Positive() ==> WithinBudget()
    {
      this.budget := budget;
      steps, llmCalls, toolCalls := 0, 0, 0;
      tokensIn, tokensOut, costCents := 0, 0, 0;
      cacheHitTokens, cacheMissTokens := 0, 0;
      preloaded, repeated := 0, 0;
      lastSignature, stopReason := None, None;
      signatures := [];
    }

    ghost predicate Valid()
      reads this
    {
      && toolCalls == |signatures|
      && repeated == ConstantSuffix(signatures)
      && (stopReason.Some? ==> stopReason.value.OfPolicy())
      && lastSignature == (if signatures == [] then None else Some(signatures[|signatures| - 1]))
    }

    /** No limit is exceeded, and as long as there is no reason to stop another tool call fits. */
    ghost predicate WithinBudget()
      reads this
    {
      && steps <= budget.maxSteps
      && llmCalls <= budget.maxLlmCalls
      && toolCalls <= budget.maxToolCalls
      && repeated <= budget.maxSameToolCalls
      && (stopReason.None? ==> toolCalls < budget.maxToolCalls && repeated < budget.maxSameToolCalls)
    }

    method NoteLlmCall(tokensIn: int, tokensOut: int, costCents: int, hits: int, misses: int)
      requires Valid()
      modifies this`llmCalls, this`tokensIn, this`tokensOut, this`costCents, this`cacheHitTokens, this`cacheMissTokens
      ensures Valid()
      ensures llmCalls == old(llmCalls) + 1
      ensures this.tokensIn == old(this.tokensIn) + tokensIn
      ensures this.tokensOut == old(this.tokensOut) + tokensOut
      ensures this.costCents == old(this.costCents) + costCents
      ensures cacheHitTokens == old(cacheHitTokens) + hits && cacheMissTokens == old(cacheMissTokens) + misses
    {
      llmCalls := llmCalls + 1;
      this.tokensIn := this.tokensIn + tokensIn;
      this.tokensOut := this.tokensOut + tokensOut;
      this.costCents := this.costCents + costCents;
      cacheHitTokens := cacheHitTokens + hits;
      cacheMissTokens := cacheMissTokens + misses;
    }

    /** The same when a token count is not a number: the call is counted, and adding the tokens raises. */
    method NoteUncountable()
      requires Valid()
      modifies this`llmCalls
      ensures Valid() && llmCalls == old(llmCalls) + 1
    {
      llmCalls := llmCalls + 1;
    }

    method NoteStep()
      requires Valid()
      modifies this`steps
      ensures Valid() && steps == old(steps) + 1
    {
      steps := steps + 1;
    }

    method NotePreloaded()
      modifies this`preloaded
      ensures preloaded == old(preloaded) + 1
    {
      preloaded := preloaded + 1;
    }

    /** Counts one call; false means the loop must stop, and then the reason is set. */
    method NoteToolCall(tool: string, args: string, result: string) returns (goOn: bool)
      requires Valid()
      modifies this`toolCalls, this`repeated, this`lastSignature, this`stopReason, this`signatures
      ensures Valid()
      ensures signatures == old(signatures) + [Signature(tool, args, result)]
      ensures goOn <==> ConstantSuffix(signatures) < budget.maxSameToolCalls && |signatures| < budget.maxToolCalls
      ensures goOn ==> stopReason == old(stopReason)
      ensures !goOn ==> stopReason == Some(
        if ConstantSuffix(signatures) >= budget.maxSameToolCalls then Homogenisation else ToolCallBudget)
      ensures old(WithinBudget()) && old(stopReason).None? ==> WithinBudget()
    {
      toolCalls := toolCalls + 1;
      var signature := Signature(tool, args, result);
      signatures := signatures + [signature];
      assert signatures[..|signatures| - 1] == old(signatures);
      if lastSignature == Some(signature) {
        repeated := repeated + 1;
      } else {
        repeated := 1;
        lastSignature := Some(signature);
      }
      if repeated >= budget.maxSameToolCalls {
        stopReason := Some(Homogenisation);
        return false;
      }
      if toolCalls >= budget.maxToolCalls {
        stopReason := Some(ToolCallBudget);
        return false;
      }
      return true;
    }

    /** The same when the signature cannot be computed: the call is counted, and hashing raises. */
    method NoteUnhashable()
      modifies this`toolCalls
      ensures toolCalls == old(toolCalls) + 1
    {
      toolCalls := toolCalls + 1;
    }

    predicate HasRoom()
      reads this
    {
      && steps < budget.maxSteps
      && llmCalls < budget.maxLlmCalls
      && tokensIn + tokensOut < budget.maxTokens
      && costCents < budget.maxCostCents
    }

    /** Besides answering, this records why the answer is no; an earlier reason is kept. */
    method CanContinue() returns (ok: bool)
      requires Valid()
      modifies this`stopReason
      ensures Valid()
      ensures ok <==> old(stopReason).None? && HasRoom()
      ensures ok <==> stopReason.None?
      ensures old(stopReason).Some? ==> stopReason == old(stopReason)
      ensures old(stopReason).None? && !ok ==> stopReason == Some(
        if steps >= budget.maxSteps then StepBudget
        else if llmCalls >= budget.maxLlmCalls then LlmCallBudget
        else if tokensIn + tokensOut >= budget.maxTokens then TokenBudget
        else CostBudget)
    {
      if stopReason.Some? {
        return false;
      }
      if steps >= budget.maxSteps {
        stopReason := Some(StepBudget);
        return false;
      }
      if llmCalls >= budget.maxLlmCalls {
        stopReason := Some(LlmCallBudget);
        return false;
      }
      if tokensIn + tokensOut >= budget.maxTokens {
        stopReason := Some(TokenBudget);
        return false;
      }
      if costCents >= budget.maxCostCents {
        stopReason := Some(CostBudget);
        return false;
      }
      return true;
    }
  }
}
