/** How much context of a model fits a machine: the ladder search and what its answers mean. */
module ContextFit {
  import opened Sequences

  const CONTEXT_LADDER: seq<nat> := [32768, 65536, 131072, 262144]
  const MIN_CONTEXT: nat := 32768
  const VRAM_RESERVE_BYTES: nat := 1024 * 1024 * 1024
  const COMPUTE_OVERHEAD_BYTES: nat := 512 * 1024 * 1024
  const MTP_OVERHEAD_BYTES: nat := 512 * 1024 * 1024
  const RAM_RESERVE_BYTES: nat := 6 * 1024 * 1024 * 1024
  const CACHE_RAM_MAX_MIB: nat := 2048
  const KV_PER_TOKEN_UNKNOWN: nat := 0
  const TWO_TO_THE_32: nat := 0x1_0000_0000

  datatype MtpSource = NoHead | Bundled | Sibling(sizeBytes: nat)
  {
    predicate IsSupported() { !NoHead? }

    function DraftWeightBytes(): nat {
      match this
      case Sibling(size) => size
      case _ => 0
    }
  }

  datatype ModelInfo = ModelInfo(
    id: string, sizeBytes: nat, mmprojSizeBytes: Option<nat>, mtp: MtpSource,
    kvBytesPerToken: nat, expertBytes: Option<nat>)

  datatype FitOptions = FitOptions(mtpEnabled: bool, mmprojOnCpu: bool, ramBudgetBytes: nat, parallel: nat)

  /** Only the MTP preference, projector on the GPU. */
  function WithMtp(mtpEnabled: bool): FitOptions {
    FitOptions(mtpEnabled, false, 0, 1)
  }

  function Max(a: nat, b: nat): nat { if a < b then b else a }

  function SaturatingSub(a: nat, b: nat): nat { if a < b then 0 else a - b }

  /** KV-cache bytes per token of context across every stream; zero streams count as one. */
  function KvBytesPerContextToken(model: ModelInfo, opts: FitOptions): nat {
    model.kvBytesPerToken * Max(opts.parallel, 1)
  }

  /** Everything that occupies VRAM before the first KV token. */
  function FixedVramBytes(model: ModelInfo, opts: FitOptions): nat {
    var mtpActive := opts.mtpEnabled && model.mtp.IsSupported();
    var mmprojVram := if opts.mmprojOnCpu || model.mmprojSizeBytes.None? then 0 else model.mmprojSizeBytes.value;
    var mtpVram := if mtpActive then MTP_OVERHEAD_BYTES + model.mtp.DraftWeightBytes() else 0;
    model.sizeBytes + mmprojVram + VRAM_RESERVE_BYTES + COMPUTE_OVERHEAD_BYTES + mtpVram
  }

  function RamOffloadBudget(totalRam: nat): nat {
    SaturatingSub(totalRam, RAM_RESERVE_BYTES + CACHE_RAM_MAX_MIB * 1024 * 1024)
  }

  function FindModel(registry: seq<ModelInfo>, id: string): Option<ModelInfo> {
    var at := FirstIndex(registry, (m: ModelInfo) => m.id == id);
    if at < |registry| then Some(registry[at]) else None
  }

  /** The largest of the first `n` rungs that is at most `limit`, searched from the top. */
  function LargestRung(limit: nat, n: nat): Option<nat>
    requires n <= |CONTEXT_LADDER|
  {
    if n == 0 then None
    else if CONTEXT_LADDER[n - 1] <= limit then Some(CONTEXT_LADDER[n - 1])
    else LargestRung(limit, n - 1)
  }

  /** The ceiling of a model of known shape; the quotient is cut to 32 bits before the search. */
  function Ceiling(model: ModelInfo, vramBytes: nat, opts: FitOptions): nat
    requires model.kvBytesPerToken != KV_PER_TOKEN_UNKNOWN
  {
    var fixed := FixedVramBytes(model, opts);
    var budget := vramBytes + opts.ramBudgetBytes;
    if budget <= fixed then MIN_CONTEXT else
    var maxCtxFit := TokensThatFit(model, vramBytes, opts) % TWO_TO_THE_32;
    match LargestRung(maxCtxFit, |CONTEXT_LADDER|)
    case Some(rung) => rung
    case None => MIN_CONTEXT
  }

  function TokensThatFit(model: ModelInfo, vramBytes: nat, opts: FitOptions): nat
    requires model.kvBytesPerToken != KV_PER_TOKEN_UNKNOWN
  {
    KvIsPositive(model, opts);
    SaturatingSub(vramBytes + opts.ramBudgetBytes, FixedVramBytes(model, opts)) / KvBytesPerContextToken(model, opts)
  }

  lemma {:induction false} KvIsPositive(model: ModelInfo, opts: FitOptions)
    requires model.kvBytesPerToken != KV_PER_TOKEN_UNKNOWN
    ensures KvBytesPerContextToken(model, opts) > 0
  {
    TimesPositive(model.kvBytesPerToken, Max(opts.parallel, 1));
  }

  lemma {:induction false} TimesPositive(a: nat, b: nat)
    requires a > 0 && b > 0
    ensures a * b > 0
  {
  }

  function ContextCeilingFor(registry: seq<ModelInfo>, id: string, vramBytes: nat, opts: FitOptions): Option<nat> {
    match FindModel(registry, id)
    case None => None
    case Some(model) =>
      if model.kvBytesPerToken == KV_PER_TOKEN_UNKNOWN then None else Some(Ceiling(model, vramBytes, opts))
  }

  function ContextIfFits(registry: seq<ModelInfo>, id: string, vramBytes: nat, opts: FitOptions): Option<nat> {
    match FindModel(registry, id)
    case None => None
    case Some(model) =>
      if model.kvBytesPerToken == KV_PER_TOKEN_UNKNOWN then None else
      var need := FixedVramBytes(model, opts) + MIN_CONTEXT * KvBytesPerContextToken(model, opts);
      if vramBytes < need then None else ContextCeilingFor(registry, id, vramBytes, opts)
  }

  function ExpertOffloadContext(registry: seq<ModelInfo>, id: string, vramBytes: nat, ramBudgetBytes: nat,
                                opts: FitOptions): Option<nat> {
    match FindModel(registry, id)
    case None => None
    case Some(model) =>
      if model.expertBytes.None? then None else
      var experts := model.expertBytes.value;
      if model.kvBytesPerToken == KV_PER_TOKEN_UNKNOWN || experts > ramBudgetBytes then None else
      KvIsPositive(model, opts);
      var fixed := SaturatingSub(FixedVramBytes(model, opts), experts);
      LargestRung(SaturatingSub(vramBytes, fixed) / KvBytesPerContextToken(model, opts), |CONTEXT_LADDER|)
  }

  function RecommendedContextFor(registry: seq<ModelInfo>, id: string, vramBytes: nat, opts: FitOptions): nat {
    match ContextCeilingFor(registry, id, vramBytes, opts)
    case Some(c) => c
    case None => MIN_CONTEXT
  }

  // What the answers mean.

  /**
   What a model needs of memory, item by item: its weights and 1.5 GiB of
   reserve, the projector unless the CPU has it, half a GiB and a separate
   drafter's weights when drafting is on and the model has a head, and so many
   tokens of KV cache for every stream, of which there is at least one.
   */
  function Need(model: ModelInfo, opts: FitOptions, context: nat): nat {
    model.sizeBytes + 1536 * 1024 * 1024
    + (if !opts.mmprojOnCpu && model.mmprojSizeBytes.Some? then model.mmprojSizeBytes.value else 0)
    + (if opts.mtpEnabled && model.mtp != NoHead then 512 * 1024 * 1024 else 0)
    + (if opts.mtpEnabled && model.mtp.Sibling? then model.mtp.sizeBytes else 0)
    + context * (model.kvBytesPerToken * if opts.parallel == 0 then 1 else opts.parallel)
  }

  /** The model with `context` tokens of KV cache for every stream fits in `bytes` of memory. */
  predicate Fits(model: ModelInfo, opts: FitOptions, context: nat, bytes: nat) {
    Need(model, opts, context) <= bytes
  }

  /** What the code adds up is what the model needs. */
  lemma {:induction false} NeedIsAddedUp(model: ModelInfo, opts: FitOptions, context: nat)
    ensures Need(model, opts, context) == FixedVramBytes(model, opts) + context * KvBytesPerContextToken(model, opts)
  {
  }

  predicate IsRung(c: nat) {
    c == 32768 || c == 65536 || c == 131072 || c == 262144
  }

  lemma {:induction false} RungsAreTheLadder(c: nat)
    ensures IsRung(c) <==> c in CONTEXT_LADDER
  {
    assert |CONTEXT_LADDER| == 4 && CONTEXT_LADDER[0] == 32768 && CONTEXT_LADDER[1] == 65536
           && CONTEXT_LADDER[2] == 131072 && CONTEXT_LADDER[3] == 262144;
  }

  /** The model found is the first of the registry with the id asked for, and one is found whenever there is one. */
  lemma {:induction false} FoundIsFirst(registry: seq<ModelInfo>, id: string)
    ensures
      match FindModel(registry, id)
      case None => forall i :: 0 <= i < |registry| ==> registry[i].id != id
      case Some(model) => exists i :: 0 <= i < |registry| && registry[i] == model && model.id == id
                                      && forall j :: 0 <= j < i ==> registry[j].id != id
  {
  }

  /** Memory for fewer than 2^32 tokens. Then nothing is lost when the token count is cut to 32 bits. */
  predicate FitsInWord(model: ModelInfo, vramBytes: nat, opts: FitOptions) {
    !Fits(model, opts, 0x1_0000_0000, vramBytes + opts.ramBudgetBytes)
  }

  lemma {:induction false} LargestRungIsLargest(limit: nat, n: nat)
    requires n <= |CONTEXT_LADDER|
    ensures
      match LargestRung(limit, n)
      case Some(r) => IsRung(r) && r <= limit && forall i :: 0 <= i < n && CONTEXT_LADDER[i] <= limit ==> CONTEXT_LADDER[i] <= r
      case None => forall i :: 0 <= i < n ==> CONTEXT_LADDER[i] > limit
  {
    if n > 0 {
      LargestRungIsLargest(limit, n - 1);
      LadderAscends();
      RungsAreTheLadder(CONTEXT_LADDER[n - 1]);
    }
  }

  lemma {:induction false} LadderAscends()
    ensures forall i, j :: 0 <= i < j < |CONTEXT_LADDER| ==> CONTEXT_LADDER[i] < CONTEXT_LADDER[j]
    ensures CONTEXT_LADDER[0] == MIN_CONTEXT
  {
  }

  lemma {:induction false} LargestRungOverall(limit: nat)
    ensures
      match LargestRung(limit, |CONTEXT_LADDER|)
      case Some(r) => IsRung(r) && r <= limit && forall c: nat :: IsRung(c) && c <= limit ==> c <= r
      case None => forall c: nat :: IsRung(c) ==> c > limit
  {
    LargestRungIsLargest(limit, |CONTEXT_LADDER|);
    forall c: nat {
      RungsAreTheLadder(c);
    }
  }

  /** A quotient at least `c` means that `c` times the divisor is there. */
  lemma {:induction false} QuotientFits(c: nat, kv: nat, bytes: nat)
    requires kv > 0
    ensures c <= bytes / kv <==> c * kv <= bytes
  {
    var k := bytes / kv;
    assert k * kv <= bytes < (k + 1) * kv;
    if c <= k {
      MulMono(c, k, kv);
    } else {
      MulMono(k + 1, c, kv);
    }
  }

  lemma {:induction false} MulMono(a: nat, b: nat, c: nat)
    requires a <= b
    ensures a * c <= b * c
  {
  }

  lemma {:induction false} FitsIsTokens(model: ModelInfo, vramBytes: nat, opts: FitOptions, c: nat)
    requires model.kvBytesPerToken != KV_PER_TOKEN_UNKNOWN && c > 0
    ensures Fits(model, opts, c, vramBytes + opts.ramBudgetBytes) <==> c <= TokensThatFit(model, vramBytes, opts)
  {
    var kv := KvBytesPerContextToken(model, opts);
    KvIsPositive(model, opts);
    NeedIsAddedUp(model, opts, c);
    QuotientFits(c, kv, SaturatingSub(vramBytes + opts.ramBudgetBytes, FixedVramBytes(model, opts)));
    TimesPositive(c, kv);
  }

  /** Soundness: an answer above the floor fits weights, overheads and KV cache in the budget, whatever the cast did. */
  lemma {:induction false} CeilingIsSound(model: ModelInfo, vramBytes: nat, opts: FitOptions)
    requires model.kvBytesPerToken != KV_PER_TOKEN_UNKNOWN
    ensures IsRung(Ceiling(model, vramBytes, opts))
    ensures Ceiling(model, vramBytes, opts) > MIN_CONTEXT ==>
            Fits(model, opts, Ceiling(model, vramBytes, opts), vramBytes + opts.ramBudgetBytes)
  {
    var tokens := TokensThatFit(model, vramBytes, opts);
    LadderAscends();
    LargestRungOverall(tokens % TWO_TO_THE_32);
    FitsIsTokens(model, vramBytes, opts, Ceiling(model, vramBytes, opts));
  }

  /** Optimality: no rung that fits is larger than the answer. */
  lemma {:induction false} CeilingIsOptimal(model: ModelInfo, vramBytes: nat, opts: FitOptions, c: nat)
    requires model.kvBytesPerToken != KV_PER_TOKEN_UNKNOWN && FitsInWord(model, vramBytes, opts)
    requires IsRung(c) && Fits(model, opts, c, vramBytes + opts.ramBudgetBytes)
    ensures c <= Ceiling(model, vramBytes, opts)
  {
    LargestRungOverall(TokensThatFit(model, vramBytes, opts));
    FitsIsTokens(model, vramBytes, opts, c);
    FitsIsTokens(model, vramBytes, opts, TWO_TO_THE_32);
  }

  /** An answer is given exactly for a model of the registry whose KV cost is known, and it is that model's ceiling. */
  lemma {:induction false} CeilingIsAnsweredExactly(registry: seq<ModelInfo>, id: string, vramBytes: nat, opts: FitOptions)
    ensures
      var answer, found := ContextCeilingFor(registry, id, vramBytes, opts), FindModel(registry, id);
      if found.Some? && found.value.kvBytesPerToken != 0
      then answer == Some(Ceiling(found.value, vramBytes, opts)) && RecommendedContextFor(registry, id, vramBytes, opts) == answer.value
      else answer == None && RecommendedContextFor(registry, id, vramBytes, opts) == 32768
  {
  }

  /** The answer that the cast to 32 bits would not change. */
  function ExactCeiling(model: ModelInfo, vramBytes: nat, opts: FitOptions): nat
    requires model.kvBytesPerToken != KV_PER_TOKEN_UNKNOWN
  {
    match LargestRung(TokensThatFit(model, vramBytes, opts), |CONTEXT_LADDER|)
    case Some(rung) => rung
    case None => MIN_CONTEXT
  }

  /**
   Exactly when the cast does no harm: the token count is within 32 bits, or
   what is left of it still reaches the top of the ladder.
   */
  lemma {:induction false} CastIsHarmlessExactly(model: ModelInfo, vramBytes: nat, opts: FitOptions)
    requires model.kvBytesPerToken != KV_PER_TOKEN_UNKNOWN
    ensures Ceiling(model, vramBytes, opts) == ExactCeiling(model, vramBytes, opts) <==>
            || FitsInWord(model, vramBytes, opts)
            || TokensThatFit(model, vramBytes, opts) % TWO_TO_THE_32 >= 262144
  {
    var tokens := TokensThatFit(model, vramBytes, opts);
    FitsIsTokens(model, vramBytes, opts, TWO_TO_THE_32);
    LargestRungOverall(tokens);
    LargestRungOverall(tokens % TWO_TO_THE_32);
  }

  /** A memory so large that the token count wraps to zero, and the answer falls from the top of the ladder to its floor. */
  lemma {:induction false} CastCanHarm()
    ensures
      var model := ModelInfo("m", 0, None, NoHead, 1, None);
      var vram := VRAM_RESERVE_BYTES + COMPUTE_OVERHEAD_BYTES + TWO_TO_THE_32;
      Ceiling(model, vram, WithMtp(false)) == MIN_CONTEXT && Fits(model, WithMtp(false), 262144, vram)
  {
    assert LargestRung(0, 4) == None by { LargestRungOverall(0); }
  }

  /** `context_if_fits` answers exactly when the floor fits VRAM alone, and what it answers fits VRAM and RAM budget. */
  lemma {:induction false} IfFitsIsExact(registry: seq<ModelInfo>, id: string, vramBytes: nat, opts: FitOptions)
    ensures
      var answer := ContextIfFits(registry, id, vramBytes, opts);
      && (answer.Some? <==>
            && FindModel(registry, id).Some?
            && FindModel(registry, id).value.kvBytesPerToken != KV_PER_TOKEN_UNKNOWN
            && Fits(FindModel(registry, id).value, opts, MIN_CONTEXT, vramBytes))
      && (answer.Some? ==>
            && answer == ContextCeilingFor(registry, id, vramBytes, opts)
            && IsRung(answer.value)
            && Fits(FindModel(registry, id).value, opts, answer.value, vramBytes + opts.ramBudgetBytes))
  {
    if ContextIfFits(registry, id, vramBytes, opts).Some? {
      CeilingIsSound(FindModel(registry, id).value, vramBytes, opts);
      LadderAscends();
    }
    if FindModel(registry, id).Some? {
      NeedIsAddedUp(FindModel(registry, id).value, opts, MIN_CONTEXT);
    }
  }

  // Monotonicity.

  /** `harder` asks for no less memory than `easier` does, at every context. */
  predicate NeedsNoLess(model: ModelInfo, easier: FitOptions, harder: FitOptions) {
    && FixedVramBytes(model, easier) <= FixedVramBytes(model, harder)
    && KvBytesPerContextToken(model, easier) <= KvBytesPerContextToken(model, harder)
  }

  /** What fits with more to ask for, or less memory to give, fits still with less to ask for and more to give. */
  lemma {:induction false} FitsMonotone(model: ModelInfo, easier: FitOptions, harder: FitOptions, c: nat, d: nat, more: nat, less: nat)
    requires NeedsNoLess(model, easier, harder) && less <= more && d <= c && Fits(model, harder, c, less)
    ensures Fits(model, easier, d, more)
  {
    var a, b := KvBytesPerContextToken(model, easier), KvBytesPerContextToken(model, harder);
    NeedIsAddedUp(model, easier, d);
    NeedIsAddedUp(model, harder, c);
    MulMono(d, c, a);
    MulMono(a, b, c);
    assert c * a == a * c && c * b == b * c;
  }

  /** Growing any of the memory or shrinking any of the needs never lowers the ceiling. */
  lemma {:induction false} CeilingMonotone(model: ModelInfo, easier: FitOptions, harder: FitOptions, more: nat, less: nat)
    requires model.kvBytesPerToken != KV_PER_TOKEN_UNKNOWN && NeedsNoLess(model, easier, harder)
    requires less + harder.ramBudgetBytes <= more + easier.ramBudgetBytes && FitsInWord(model, more, easier)
    ensures Ceiling(model, less, harder) <= Ceiling(model, more, easier)
  {
    var c := Ceiling(model, less, harder);
    CeilingIsSound(model, less, harder);
    CeilingIsSound(model, more, easier);
    RungsStartAtFloor();
    if c > MIN_CONTEXT {
      FitsMonotone(model, easier, harder, c, c, more + easier.ramBudgetBytes, less + harder.ramBudgetBytes);
      CeilingIsOptimal(model, more, easier, c);
    }
  }

  lemma {:induction false} RungsStartAtFloor()
    ensures forall c: nat :: IsRung(c) ==> MIN_CONTEXT <= c
  {
    assert |CONTEXT_LADDER| == 4;
  }

  /** More VRAM or a larger RAM budget never lowers the ceiling. */
  lemma {:induction false} MoreMemoryNeverHurts(model: ModelInfo, opts: FitOptions, less: nat, more: nat, lessRam: nat, moreRam: nat)
    requires model.kvBytesPerToken != KV_PER_TOKEN_UNKNOWN && less <= more && lessRam <= moreRam
    requires FitsInWord(model, more, opts.(ramBudgetBytes := moreRam))
    ensures Ceiling(model, less, opts.(ramBudgetBytes := lessRam)) <= Ceiling(model, more, opts.(ramBudgetBytes := moreRam))
  {
    CeilingMonotone(model, opts.(ramBudgetBytes := moreRam), opts.(ramBudgetBytes := lessRam), more, less);
  }

  /** The projector on the CPU never lowers the ceiling, and MTP never raises it. */
  lemma {:induction false} ProjectorAndMtp(model: ModelInfo, opts: FitOptions, vramBytes: nat)
    requires model.kvBytesPerToken != KV_PER_TOKEN_UNKNOWN
    requires FitsInWord(model, vramBytes, opts.(mmprojOnCpu := true))
    requires FitsInWord(model, vramBytes, opts.(mtpEnabled := false))
    ensures Ceiling(model, vramBytes, opts.(mmprojOnCpu := false)) <= Ceiling(model, vramBytes, opts.(mmprojOnCpu := true))
    ensures Ceiling(model, vramBytes, opts.(mtpEnabled := true)) <= Ceiling(model, vramBytes, opts.(mtpEnabled := false))
  {
    CeilingMonotone(model, opts.(mmprojOnCpu := true), opts.(mmprojOnCpu := false), vramBytes, vramBytes);
    CeilingMonotone(model, opts.(mtpEnabled := false), opts.(mtpEnabled := true), vramBytes, vramBytes);
  }

  /** More streams never raise the ceiling. */
  lemma {:induction false} MoreStreamsNeverHelp(model: ModelInfo, opts: FitOptions, fewer: nat, more: nat, vramBytes: nat)
    requires model.kvBytesPerToken != KV_PER_TOKEN_UNKNOWN && fewer <= more
    requires FitsInWord(model, vramBytes, opts.(parallel := fewer))
    ensures Ceiling(model, vramBytes, opts.(parallel := more)) <= Ceiling(model, vramBytes, opts.(parallel := fewer))
  {
    MulMono(Max(fewer, 1), Max(more, 1), model.kvBytesPerToken);
    assert Max(fewer, 1) * model.kvBytesPerToken == model.kvBytesPerToken * Max(fewer, 1);
    assert Max(more, 1) * model.kvBytesPerToken == model.kvBytesPerToken * Max(more, 1);
    CeilingMonotone(model, opts.(parallel := fewer), opts.(parallel := more), vramBytes, vramBytes);
  }

  /** The rung below `c`, or the floor. */
  function RungBelow(c: nat): nat {
    if c <= MIN_CONTEXT then MIN_CONTEXT else c / 2
  }

  lemma {:induction false} RungBelowIsRung(c: nat)
    requires IsRung(c)
    ensures IsRung(RungBelow(c)) && RungBelow(c) <= c
    ensures c > MIN_CONTEXT ==> 2 * RungBelow(c) == c
    ensures forall d: nat :: IsRung(d) && d < c ==> d <= RungBelow(c)
  {
    assert CONTEXT_LADDER[0] == 32768 && CONTEXT_LADDER[1] == 65536
           && CONTEXT_LADDER[2] == 131072 && CONTEXT_LADDER[3] == 262144;
    var i :| 0 <= i < 4 && CONTEXT_LADDER[i] == c;
    if i > 0 {
      assert CONTEXT_LADDER[i - 1] == RungBelow(c);
    }
  }

  /** Doubling the streams costs at most one rung of the ladder. */
  lemma {:induction false} DoublingStreamsCostsOneRung(model: ModelInfo, opts: FitOptions, vramBytes: nat)
    requires model.kvBytesPerToken != KV_PER_TOKEN_UNKNOWN
    requires FitsInWord(model, vramBytes, opts)
    ensures RungBelow(Ceiling(model, vramBytes, opts)) <= Ceiling(model, vramBytes, opts.(parallel := 2 * opts.parallel))
  {
    var twice := opts.(parallel := 2 * opts.parallel);
    var c := Ceiling(model, vramBytes, opts);
    var b := RungBelow(c);
    CeilingIsSound(model, vramBytes, opts);
    CeilingIsSound(model, vramBytes, twice);
    RungBelowIsRung(c);
    RungsStartAtFloor();
    if b > MIN_CONTEXT {
      var kv := model.kvBytesPerToken;
      KvDoubles(kv, opts.parallel, b);
      WordStaysWide(model, vramBytes, opts, twice);
      CeilingIsOptimal(model, vramBytes, twice, b);
    }
  }

  /** Half the context for twice the streams needs no more memory. */
  lemma {:induction false} KvDoubles(kv: nat, parallel: nat, b: nat)
    ensures b * (kv * Max(2 * parallel, 1)) <= (2 * b) * (kv * Max(parallel, 1))
  {
    var p, d := Max(parallel, 1), Max(2 * parallel, 1);
    MulMono(d, 2 * p, kv);
    assert d * kv == kv * d && (2 * p) * kv == 2 * (kv * p);
    MulMono(kv * d, 2 * (kv * p), b);
    assert (kv * d) * b == b * (kv * d) && (2 * (kv * p)) * b == (2 * b) * (kv * p);
  }

  /** Asking for more never makes the token count outgrow the word. */
  lemma {:induction false} WordStaysWide(model: ModelInfo, vramBytes: nat, opts: FitOptions, twice: FitOptions)
    requires model.kvBytesPerToken != KV_PER_TOKEN_UNKNOWN && FitsInWord(model, vramBytes, opts)
    requires twice == opts.(parallel := 2 * opts.parallel)
    ensures FitsInWord(model, vramBytes, twice)
  {
    var room := SaturatingSub(vramBytes + opts.ramBudgetBytes, FixedVramBytes(model, opts));
    var a, b := KvBytesPerContextToken(model, opts), KvBytesPerContextToken(model, twice);
    KvIsPositive(model, opts);
    KvIsPositive(model, twice);
    MulMono(Max(opts.parallel, 1), Max(twice.parallel, 1), model.kvBytesPerToken);
    SmallerQuotient(room, a, b);
    FitsIsTokens(model, vramBytes, opts, TWO_TO_THE_32);
    FitsIsTokens(model, vramBytes, twice, TWO_TO_THE_32);
  }

  lemma {:induction false} SmallerQuotient(room: nat, a: nat, b: nat)
    requires 0 < a <= b
    ensures room / b <= room / a
  {
    var k := room / b;
    QuotientFits(k, b, room);
    QuotientFits(k, a, room);
    MulMono(a, b, k);
    assert k * a == a * k && k * b == b * k;
  }

  // Experts in system RAM.

  /** Everything but the experts, with `c` tokens of KV cache for every stream, fits in `vramBytes`. */
  predicate RestFits(model: ModelInfo, opts: FitOptions, experts: nat, c: nat, vramBytes: nat) {
    var kvCache := Need(model, opts, c) - Need(model, opts, 0);
    kvCache + (if Need(model, opts, 0) < experts then 0 else Need(model, opts, 0) - experts) <= vramBytes
  }

  /** The layout with only the experts in RAM: offered exactly when both pools hold it, at the largest rung they hold. */
  lemma {:induction false} ExpertOffloadIsExact(registry: seq<ModelInfo>, id: string, vramBytes: nat, ramBudgetBytes: nat, opts: FitOptions)
    requires FindModel(registry, id).Some?
    requires
      var model := FindModel(registry, id).value;
      model.expertBytes.Some? && model.kvBytesPerToken != KV_PER_TOKEN_UNKNOWN
    ensures
      var model := FindModel(registry, id).value;
      var experts := model.expertBytes.value;
      match ExpertOffloadContext(registry, id, vramBytes, ramBudgetBytes, opts)
      case Some(c) =>
        && experts <= ramBudgetBytes && IsRung(c) && RestFits(model, opts, experts, c, vramBytes)
        && (forall d: nat :: IsRung(d) && RestFits(model, opts, experts, d, vramBytes) ==> d <= c)
      case None => experts > ramBudgetBytes || !RestFits(model, opts, experts, MIN_CONTEXT, vramBytes)
  {
    var model := FindModel(registry, id).value;
    var experts := model.expertBytes.value;
    var kv := KvBytesPerContextToken(model, opts);
    KvIsPositive(model, opts);
    var room := SaturatingSub(vramBytes, SaturatingSub(FixedVramBytes(model, opts), experts));
    LargestRungOverall(room / kv);
    RungsStartAtFloor();
    LadderAscends();
    assert IsRung(MIN_CONTEXT);
    NeedIsAddedUp(model, opts, 0);
    forall d: nat | IsRung(d)
      ensures d <= room / kv <==> RestFits(model, opts, experts, d, vramBytes)
    {
      NeedIsAddedUp(model, opts, d);
      QuotientFits(d, kv, room);
      TimesPositive(d, kv);
    }
  }

  /** Whenever the experts-only layout is offered, the two-pool ceiling for the same RAM budget is at least as large. */
  lemma {:induction false} ExpertOffloadAgrees(registry: seq<ModelInfo>, id: string, vramBytes: nat, ramBudgetBytes: nat, opts: FitOptions)
    requires ExpertOffloadContext(registry, id, vramBytes, ramBudgetBytes, opts).Some?
    requires FitsInWord(FindModel(registry, id).value, vramBytes, opts.(ramBudgetBytes := ramBudgetBytes))
    ensures
      var ceiling := ContextCeilingFor(registry, id, vramBytes, opts.(ramBudgetBytes := ramBudgetBytes));
      ceiling.Some? && ExpertOffloadContext(registry, id, vramBytes, ramBudgetBytes, opts).value <= ceiling.value
  {
    var model := FindModel(registry, id).value;
    var c := ExpertOffloadContext(registry, id, vramBytes, ramBudgetBytes, opts).value;
    ExpertOffloadIsExact(registry, id, vramBytes, ramBudgetBytes, opts);
    CeilingIsOptimal(model, vramBytes, opts.(ramBudgetBytes := ramBudgetBytes), c);
  }
}
