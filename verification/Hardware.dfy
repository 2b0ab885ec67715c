/** What the hardware step recommends for one GPU, and that every choice it offers fits the memory it was sized for. */
module Hardware {
  import opened Sequences
  import opened ContextFit

  const OFFLOAD_CANDIDATE := "Qwen3.6-35B-A3B-UD-IQ4_NL"
  const OFFLOAD_MIN_VRAM_MB: nat := 7168
  const OFFLOAD_MAX_VRAM_MB: nat := 23552
  const OFFLOAD_MIN_RAM_MB: nat := 31744
  const MB: nat := 1024 * 1024
  const U64_MAX: nat := 0xFFFF_FFFF_FFFF_FFFF

  datatype OffloadAlternative = OffloadAlternative(modelId: string, contextSize: nat, spill: bool)

  datatype GpuInfo = GpuInfo(name: Option<string>, api: Option<string>, vramMb: Option<nat>, integrated: bool)

  datatype Recommendation = Recommendation(
    quant: string, contextSize: nat, memoryMb: Option<nat>, integratedSlow: bool,
    alternative: Option<OffloadAlternative>)

  const QUANT_BY_VRAM_MB: seq<(nat, string)> := [
    (7168, "Qwen3.5-4B-IQ4_NL"),
    (11264, "Qwen3.5-9B-IQ4_NL"),
    (15360, "Qwen3.5-9B-UD-Q6_K_XL"),
    (23552, "gemma-4-12b-it-UD-Q6_K_XL"),
    (31744, "Qwen3.6-35B-A3B-UD-IQ4_NL"),
    (U64_MAX, "Qwen3.6-35B-A3B-UD-Q5_K_XL")]

  function OffloadFor(registry: seq<ModelInfo>, vramMb: Option<nat>, integrated: bool, totalRamMb: nat,
                      recommended: string): Option<OffloadAlternative> {
    if vramMb.None? || integrated then None else
    var mb := vramMb.value;
    if !(OFFLOAD_MIN_VRAM_MB <= mb < OFFLOAD_MAX_VRAM_MB) || totalRamMb < OFFLOAD_MIN_RAM_MB
       || recommended == OFFLOAD_CANDIDATE
    then None else
    match ExpertOffloadContext(registry, OFFLOAD_CANDIDATE, mb * MB, RamOffloadBudget(totalRamMb * MB), WithMtp(true))
    case None => None
    case Some(c) => Some(OffloadAlternative(OFFLOAD_CANDIDATE, c, true))
  }

  function IntegratedFor(registry: seq<ModelInfo>, heapMb: Option<nat>, totalRamMb: nat): Option<OffloadAlternative> {
    if heapMb.None? || totalRamMb < OFFLOAD_MIN_RAM_MB then None else
    match ContextIfFits(registry, OFFLOAD_CANDIDATE, heapMb.value * MB, WithMtp(true))
    case None => None
    case Some(c) => Some(OffloadAlternative(OFFLOAD_CANDIDATE, c, false))
  }

  /** The value of the first tier whose threshold `vramMb` falls below. */
  function TierLookup(table: seq<(nat, string)>, vramMb: nat): string
    requires exists i :: 0 <= i < |table| && vramMb < table[i].0
  {
    if vramMb < table[0].0 then table[0].1 else TierLookup(table[1..], vramMb)
  }

  function MinOf(a: nat, b: nat): nat { if b < a then b else a }

  function OrElse(o: Option<nat>, other: nat): nat {
    match o
    case Some(v) => v
    case None => other
  }

  /** The memory a GPU is sized by: Metal shares its memory with everything else, so no more than is free now. */
  function MemoryMb(gpu: GpuInfo, availableRamMb: nat): Option<nat> {
    if gpu.vramMb.Some? && gpu.api == Some("Metal")
    then Some(MinOf(gpu.vramMb.value, availableRamMb)) else gpu.vramMb
  }

  function ContextMb(memoryMb: Option<nat>, integratedSlow: bool, availableRamMb: nat): Option<nat> {
    if memoryMb.Some? && integratedSlow then Some(MinOf(memoryMb.value, availableRamMb)) else memoryMb
  }

  /** The model, context and second choice for `gpu`; `isFastApu` reads the GPU's name. */
  function Recommend(registry: seq<ModelInfo>, isFastApu: string -> bool, gpu: GpuInfo,
                     totalRamMb: nat, availableRamMb: nat): Recommendation
    requires OrElse(MemoryMb(gpu, availableRamMb), availableRamMb) < U64_MAX
  {
    var fastApu := gpu.integrated && gpu.name.Some? && isFastApu(gpu.name.value);
    var integratedSlow := gpu.integrated && !fastApu;
    var unified := gpu.api == Some("Metal");
    var memoryMb := MemoryMb(gpu, availableRamMb);
    assert QUANT_BY_VRAM_MB[5].0 == U64_MAX;
    var quant :=
      if integratedSlow || (gpu.name.None? && gpu.vramMb.None?) then "Qwen3.5-4B-IQ4_NL"
      else TierLookup(QUANT_BY_VRAM_MB, OrElse(memoryMb, availableRamMb));
    var contextMb := ContextMb(memoryMb, integratedSlow, availableRamMb);
    var contextSize :=
      match contextMb
      case Some(mb) => RecommendedContextFor(registry, quant, mb * MB, WithMtp(true))
      case None => MIN_CONTEXT;
    var alternative :=
      if integratedSlow then IntegratedFor(registry, gpu.vramMb, totalRamMb)
      else OffloadFor(registry, memoryMb, gpu.integrated || unified, totalRamMb, quant);
    Recommendation(quant, contextSize, memoryMb, integratedSlow, alternative)
  }

  /** The first tier that holds is the one found: no earlier threshold is above `vramMb`. */
  lemma {:induction false} TierIsFirst(table: seq<(nat, string)>, vramMb: nat)
    requires exists i :: 0 <= i < |table| && vramMb < table[i].0
    ensures exists k :: 0 <= k < |table| && vramMb < table[k].0 && TierLookup(table, vramMb) == table[k].1
                        && forall j :: 0 <= j < k ==> table[j].0 <= vramMb
  {
    if vramMb >= table[0].0 {
      var i :| 0 <= i < |table| && vramMb < table[i].0;
      assert table[1..][i - 1] == table[i];
      TierIsFirst(table[1..], vramMb);
      var k :| 0 <= k < |table[1..]| && vramMb < table[1..][k].0 && TierLookup(table[1..], vramMb) == table[1..][k].1
               && forall j :: 0 <= j < k ==> table[1..][j].0 <= vramMb;
      assert forall j :: 0 <= j < k + 1 ==> table[j].0 <= vramMb by {
        assert forall j :: 1 <= j < k + 1 ==> table[j] == table[1..][j - 1];
      }
      assert table[k + 1] == table[1..][k];
    }
  }

  /** Integrated graphics that are not one of the fast ones. */
  predicate IsSlow(isFastApu: string -> bool, gpu: GpuInfo) {
    gpu.integrated && !(gpu.name.Some? && isFastApu(gpu.name.value))
  }

  /**
   The first choice, memory by memory: the smallest model for slow graphics and
   for a GPU nothing is known of, and otherwise by the card's memory, which on a
   Mac is no more than what is free, or by the free RAM where it is not known.
   */
  lemma {:induction false} QuantIsByMemory(registry: seq<ModelInfo>, isFastApu: string -> bool, gpu: GpuInfo,
                                           totalRamMb: nat, availableRamMb: nat)
    requires OrElse(MemoryMb(gpu, availableRamMb), availableRamMb) < U64_MAX
    ensures
      var rec := Recommend(registry, isFastApu, gpu, totalRamMb, availableRamMb);
      var mb := if gpu.vramMb.None? || (gpu.api == Some("Metal") && availableRamMb < gpu.vramMb.value)
                then availableRamMb else gpu.vramMb.value;
      && rec.integratedSlow == IsSlow(isFastApu, gpu)
      && rec.memoryMb == (if gpu.vramMb.None? then None else Some(mb))
      && rec.quant ==
           if IsSlow(isFastApu, gpu) || (gpu.name.None? && gpu.vramMb.None?) || mb < 7168 then "Qwen3.5-4B-IQ4_NL"
           else if mb < 11264 then "Qwen3.5-9B-IQ4_NL"
           else if mb < 15360 then "Qwen3.5-9B-UD-Q6_K_XL"
           else if mb < 23552 then "gemma-4-12b-it-UD-Q6_K_XL"
           else if mb < 31744 then "Qwen3.6-35B-A3B-UD-IQ4_NL"
           else "Qwen3.6-35B-A3B-UD-Q5_K_XL"
  {
    var mb := OrElse(MemoryMb(gpu, availableRamMb), availableRamMb);
    assert QUANT_BY_VRAM_MB[5].0 == U64_MAX;
    TierIsFirst(QUANT_BY_VRAM_MB, mb);
    var k :| 0 <= k < 6 && mb < QUANT_BY_VRAM_MB[k].0 && TierLookup(QUANT_BY_VRAM_MB, mb) == QUANT_BY_VRAM_MB[k].1
             && forall j :: 0 <= j < k ==> QUANT_BY_VRAM_MB[j].0 <= mb;
    assert QUANT_BY_VRAM_MB[0].0 == 7168 && QUANT_BY_VRAM_MB[1].0 == 11264 && QUANT_BY_VRAM_MB[2].0 == 15360
           && QUANT_BY_VRAM_MB[3].0 == 23552 && QUANT_BY_VRAM_MB[4].0 == 31744;
  }

  /** The model that is offered as a second choice, when the registry has it and its KV cost is known. */
  ghost predicate IsCandidate(registry: seq<ModelInfo>, model: ModelInfo) {
    FindModel(registry, "Qwen3.6-35B-A3B-UD-IQ4_NL") == Some(model) && model.kvBytesPerToken != 0
  }

  /**
   Exactly when slow integrated graphics get a second choice: with 32 GB of RAM
   (reported short), where the whole model and the smallest context fit in what
   the GPU may use. The context is one that fits, and the largest such.
   */
  lemma {:induction false} WholeModelIsOfferedExactly(registry: seq<ModelInfo>, isFastApu: string -> bool, gpu: GpuInfo,
                                                      totalRamMb: nat, availableRamMb: nat)
    requires OrElse(MemoryMb(gpu, availableRamMb), availableRamMb) < U64_MAX && IsSlow(isFastApu, gpu)
    ensures
      var alternative := Recommend(registry, isFastApu, gpu, totalRamMb, availableRamMb).alternative;
      var bytes := if gpu.vramMb.Some? then gpu.vramMb.value * 1048576 else 0;
      && (alternative.Some? <==>
            && gpu.vramMb.Some? && totalRamMb >= 31744
            && exists model :: IsCandidate(registry, model) && Fits(model, FitOptions(true, false, 0, 1), 32768, bytes))
      && (alternative.Some? ==>
            && alternative.value.modelId == "Qwen3.6-35B-A3B-UD-IQ4_NL" && !alternative.value.spill
            && forall model :: IsCandidate(registry, model) ==> IsLargestThatFits(model, bytes, alternative.value.contextSize))
  {
    hide Ceiling, Need, Fits, FixedVramBytes, KvBytesPerContextToken, IsLargestThatFits;
    var opts := FitOptions(true, false, 0, 1);
    if gpu.vramMb.Some? {
      var bytes := gpu.vramMb.value * 1048576;
      IfFitsIsExact(registry, OFFLOAD_CANDIDATE, bytes, opts);
      forall model | IsCandidate(registry, model) && Fits(model, opts, 32768, bytes)
        ensures IsLargestThatFits(model, bytes, Ceiling(model, bytes, opts))
      {
        CeilingIsLargest(model, bytes);
      }
      var found := FindModel(registry, OFFLOAD_CANDIDATE);
      assert found.Some? && found.value.kvBytesPerToken != 0 ==> IsCandidate(registry, found.value);
    }
  }

  /** A rung that fits `bytes` with drafting on, and none larger does that a 32-bit count can tell. */
  ghost predicate IsLargestThatFits(model: ModelInfo, bytes: nat, context: nat) {
    var opts := FitOptions(true, false, 0, 1);
    && IsRung(context) && Fits(model, opts, context, bytes)
    && forall c: nat :: IsRung(c) && Fits(model, opts, c, bytes) && FitsInWord(model, bytes, opts) ==> c <= context
  }

  lemma {:induction false} CeilingIsLargest(model: ModelInfo, bytes: nat)
    requires model.kvBytesPerToken != 0 && Fits(model, FitOptions(true, false, 0, 1), 32768, bytes)
    ensures IsLargestThatFits(model, bytes, Ceiling(model, bytes, FitOptions(true, false, 0, 1)))
  {
    var opts := FitOptions(true, false, 0, 1);
    CeilingIsSound(model, bytes, opts);
    RungsAreNoLess(Ceiling(model, bytes, opts));
    forall c: nat | IsRung(c) && Fits(model, opts, c, bytes) && FitsInWord(model, bytes, opts) {
      CeilingIsOptimal(model, bytes, opts, c);
    }
  }

  /**
   Exactly when any other GPU gets one: a card of its own memory, with 8 to
   24 GB and 32 GB of RAM (reported short), that is not recommended the model
   already, where the experts leave 8 GiB of RAM free and the rest fits the card
   with the smallest context. The context is the largest that fits.
   */
  lemma {:induction false} SpillIsOfferedExactly(registry: seq<ModelInfo>, isFastApu: string -> bool, gpu: GpuInfo,
                                                 totalRamMb: nat, availableRamMb: nat)
    requires OrElse(MemoryMb(gpu, availableRamMb), availableRamMb) < U64_MAX && !IsSlow(isFastApu, gpu)
    ensures
      var alternative := Recommend(registry, isFastApu, gpu, totalRamMb, availableRamMb).alternative;
      var opts := FitOptions(true, false, 0, 1);
      && (alternative.Some? <==>
            && !gpu.integrated && gpu.api != Some("Metal") && gpu.vramMb.Some? && 7168 <= gpu.vramMb.value < 23552
            && totalRamMb >= 31744
            && exists model :: IsCandidate(registry, model) && ExpertsLeaveRoom(model, totalRamMb)
                               && RestFits(model, opts, model.expertBytes.value, 32768, gpu.vramMb.value * 1048576))
      && (alternative.Some? ==>
            && alternative.value.modelId == "Qwen3.6-35B-A3B-UD-IQ4_NL" && alternative.value.spill
            && forall model :: IsCandidate(registry, model) && model.expertBytes.Some? ==>
                 IsLargestBeside(model, gpu.vramMb.value * 1048576, alternative.value.contextSize))
  {
    hide Need, FixedVramBytes, KvBytesPerContextToken, ExpertOffloadContext;
    QuantIsByMemory(registry, isFastApu, gpu, totalRamMb, availableRamMb);
    if gpu.vramMb.Some? {
      if totalRamMb >= 31744 {
        SpillOf(registry, gpu.vramMb.value * 1048576, totalRamMb);
      }
    }
  }

  /** The experts fit in RAM with 6 GiB left for everything else and 2 GiB for the prompt cache. */
  predicate ExpertsLeaveRoom(model: ModelInfo, totalRamMb: nat) {
    model.expertBytes.Some? && model.expertBytes.value + 8 * 1024 * 1048576 <= totalRamMb * 1048576
  }

  /** The rungs that fit `bytes` beside the experts are exactly those up to `context`, a rung itself. */
  ghost predicate IsLargestBeside(model: ModelInfo, bytes: nat, context: nat)
    requires model.expertBytes.Some?
  {
    && IsRung(context)
    && forall c: nat :: IsRung(c) ==>
         (RestFits(model, FitOptions(true, false, 0, 1), model.expertBytes.value, c, bytes) <==> c <= context)
  }

  lemma {:induction false} SpillOf(registry: seq<ModelInfo>, bytes: nat, totalRamMb: nat)
    requires totalRamMb >= 31744
    ensures
      var opts := FitOptions(true, false, 0, 1);
      var answer := ExpertOffloadContext(registry, OFFLOAD_CANDIDATE, bytes, RamOffloadBudget(totalRamMb * MB), WithMtp(true));
      && (answer.Some? <==> exists model :: IsCandidate(registry, model) && ExpertsLeaveRoom(model, totalRamMb)
                                            && RestFits(model, opts, model.expertBytes.value, 32768, bytes))
      && (answer.Some? ==>
            forall model :: IsCandidate(registry, model) && model.expertBytes.Some? ==> IsLargestBeside(model, bytes, answer.value))
  {
    hide RestFits, IsRung;
    var opts, budget := FitOptions(true, false, 0, 1), RamOffloadBudget(totalRamMb * MB);
    var found := FindModel(registry, OFFLOAD_CANDIDATE);
    if found.Some? && found.value.expertBytes.Some? && found.value.kvBytesPerToken != 0 {
      var model := found.value;
      var experts := model.expertBytes.value;
      ExpertOffloadIsExact(registry, OFFLOAD_CANDIDATE, bytes, budget, opts);
      assert IsCandidate(registry, model);
      assert ExpertsLeaveRoom(model, totalRamMb) <==> experts <= budget;
      var answer := ExpertOffloadContext(registry, OFFLOAD_CANDIDATE, bytes, budget, opts);
      if answer.Some? {
        forall c: nat | c <= answer.value ensures RestFits(model, opts, experts, c, bytes) {
          LessRestFits(model, opts, experts, c, answer.value, bytes);
        }
        RungsAreNoLess(answer.value);
      }
    }
  }

  lemma {:induction false} RungsAreNoLess(c: nat)
    requires IsRung(c)
    ensures 32768 <= c
  {
  }

  lemma {:induction false} LessRestFits(model: ModelInfo, opts: FitOptions, experts: nat, d: nat, c: nat, bytes: nat)
    requires d <= c && RestFits(model, opts, experts, c, bytes)
    ensures RestFits(model, opts, experts, d, bytes)
  {
    NeedIsAddedUp(model, opts, 0);
    NeedIsAddedUp(model, opts, c);
    NeedIsAddedUp(model, opts, d);
    MulMono(d, c, KvBytesPerContextToken(model, opts));
  }

  /**
   Every second choice fits the pools it was sized for. One that spills keeps
   its experts within the RAM budget and the rest, with the KV cache of the
   offered context, within the card's own memory. One that does not spill fits
   whole in what the GPU may use.
   */
  lemma {:induction false} EveryAlternativeFits(registry: seq<ModelInfo>, isFastApu: string -> bool, gpu: GpuInfo,
                             totalRamMb: nat, availableRamMb: nat)
    requires OrElse(MemoryMb(gpu, availableRamMb), availableRamMb) < U64_MAX
    requires Recommend(registry, isFastApu, gpu, totalRamMb, availableRamMb).alternative.Some?
    ensures
      var rec := Recommend(registry, isFastApu, gpu, totalRamMb, availableRamMb);
      var alt := rec.alternative.value;
      var found := FindModel(registry, alt.modelId);
      && found.Some? && IsRung(alt.contextSize) && gpu.vramMb.Some? && totalRamMb >= OFFLOAD_MIN_RAM_MB
      && alt.spill == !rec.integratedSlow
      && (alt.spill ==>
            && rec.quant != alt.modelId && !gpu.integrated && rec.memoryMb == gpu.vramMb
            && found.value.expertBytes.Some?
            && found.value.expertBytes.value <= RamOffloadBudget(totalRamMb * MB)
            && RestFits(found.value, WithMtp(true), found.value.expertBytes.value, alt.contextSize, gpu.vramMb.value * MB))
      && (!alt.spill ==> Fits(found.value, WithMtp(true), alt.contextSize, gpu.vramMb.value * MB))
  {
    var rec := Recommend(registry, isFastApu, gpu, totalRamMb, availableRamMb);
    if rec.integratedSlow {
      IfFitsIsExact(registry, OFFLOAD_CANDIDATE, gpu.vramMb.value * MB, WithMtp(true));
    } else {
      ExpertOffloadIsExact(registry, OFFLOAD_CANDIDATE, gpu.vramMb.value * MB,
                           RamOffloadBudget(totalRamMb * MB), WithMtp(true));
    }
  }

  /** The first choice's context is a rung, and above the floor it fits the memory found, and on slow graphics the RAM free now. */
  lemma {:induction false} RecommendedContextFits(registry: seq<ModelInfo>, isFastApu: string -> bool, gpu: GpuInfo,
                               totalRamMb: nat, availableRamMb: nat)
    requires OrElse(MemoryMb(gpu, availableRamMb), availableRamMb) < U64_MAX
    ensures
      var rec := Recommend(registry, isFastApu, gpu, totalRamMb, availableRamMb);
      && IsRung(rec.contextSize)
      && (rec.contextSize > MIN_CONTEXT ==>
            && FindModel(registry, rec.quant).Some? && rec.memoryMb.Some?
            && Fits(FindModel(registry, rec.quant).value, WithMtp(true), rec.contextSize, rec.memoryMb.value * MB)
            && (rec.integratedSlow || gpu.api == Some("Metal") ==>
                  Fits(FindModel(registry, rec.quant).value, WithMtp(true), rec.contextSize, availableRamMb * MB)))
  {
    var rec := Recommend(registry, isFastApu, gpu, totalRamMb, availableRamMb);
    var contextMb := ContextMb(rec.memoryMb, rec.integratedSlow, availableRamMb);
    assert IsRung(MIN_CONTEXT) by { assert CONTEXT_LADDER[0] == MIN_CONTEXT; }
    if contextMb.Some? && FindModel(registry, rec.quant).Some?
       && FindModel(registry, rec.quant).value.kvBytesPerToken != KV_PER_TOKEN_UNKNOWN {
      CeilingIsSound(FindModel(registry, rec.quant).value, contextMb.value * MB, WithMtp(true));
      MulMono(contextMb.value, rec.memoryMb.value, MB);
    }
  }

  /**
   The first choice's context, when its model is known and fits with the
   smallest one, is the largest that fits; anything else gets the smallest.
   */
  lemma {:induction false} RecommendedContextIsLargest(registry: seq<ModelInfo>, isFastApu: string -> bool, gpu: GpuInfo,
                                                       totalRamMb: nat, availableRamMb: nat)
    requires OrElse(MemoryMb(gpu, availableRamMb), availableRamMb) < U64_MAX
    ensures
      var rec := Recommend(registry, isFastApu, gpu, totalRamMb, availableRamMb);
      var found := FindModel(registry, rec.quant);
      var mb := if gpu.vramMb.None? then 0
                else if (gpu.api == Some("Metal") || rec.integratedSlow) && availableRamMb < gpu.vramMb.value then availableRamMb
                else gpu.vramMb.value;
      if && gpu.vramMb.Some? && found.Some? && found.value.kvBytesPerToken != 0
         && Fits(found.value, FitOptions(true, false, 0, 1), 32768, mb * 1048576)
      then IsLargestThatFits(found.value, mb * 1048576, rec.contextSize)
      else rec.contextSize == 32768
  {
    hide Ceiling, Fits, IsLargestThatFits;
    var rec := Recommend(registry, isFastApu, gpu, totalRamMb, availableRamMb);
    var found, opts := FindModel(registry, rec.quant), FitOptions(true, false, 0, 1);
    var contextMb := ContextMb(MemoryMb(gpu, availableRamMb), rec.integratedSlow, availableRamMb);
    if contextMb.Some? {
      var bytes := contextMb.value * 1048576;
      CeilingIsAnsweredExactly(registry, rec.quant, bytes, opts);
      if found.Some? && found.value.kvBytesPerToken != 0 {
        if Fits(found.value, opts, 32768, bytes) {
          CeilingIsLargest(found.value, bytes);
        } else {
          FloorIsAllThatIsLeft(found.value, bytes);
        }
      }
    }
  }

  lemma {:induction false} FloorIsAllThatIsLeft(model: ModelInfo, bytes: nat)
    requires model.kvBytesPerToken != 0 && !Fits(model, FitOptions(true, false, 0, 1), 32768, bytes)
    ensures Ceiling(model, bytes, FitOptions(true, false, 0, 1)) == 32768
  {
    var opts := FitOptions(true, false, 0, 1);
    CeilingIsSound(model, bytes, opts);
    RungsAreNoLess(Ceiling(model, bytes, opts));
    if Ceiling(model, bytes, opts) > 32768 {
      FitsMonotone(model, opts, opts, Ceiling(model, bytes, opts), 32768, bytes, bytes);
    }
  }
}
