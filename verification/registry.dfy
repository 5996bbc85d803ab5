/** The `MODELS` table and `load_model`, shared by both entry points
    (app.py and app_new.py define them identically).

    The table is an immutable map threaded through every call. Each entry's
    `model` and `tokenizer` slots are assigned together, in adjacent
    statements, after construction succeeds, so they are modelled as one
    optional pair. Construction (tokenizer and weight loading, adapter
    composition, device transfer, `eval()`) is an oracle the caller passes in. */
module Registry {
  import opened Wrappers

  /** The `type` field of an entry: "mbart", "mt5", or any other tag, which
      makes `load_model` raise. `OtherFamily` stands only for tags other than
      "mbart" and "mt5"; `FamilyOf` is the only way a tag becomes a family. */
  datatype Family = MBart | MT5 | OtherFamily(tag: string)

  /** Reads the `type` string the way `load_model`'s `==` tests do. */
  function FamilyOf(tag: string): (f: Family)
    ensures f.MBart? <==> tag == "mbart"
    ensures f.MT5? <==> tag == "mt5"
    ensures f.OtherFamily? ==> f.tag == tag
  {
    if tag == "mbart" then MBart else if tag == "mt5" then MT5 else OtherFamily(tag)
  }

  /** Opaque handles for what the libraries construct. */
  datatype Model = Model(id: nat)
  datatype Tokenizer = Tokenizer(id: nat)
  datatype Instance = Instance(model: Model, tokenizer: Tokenizer)

  /** One entry of `MODELS`: display name, artifact locator, family, and the
      lazily filled slot (`None` until a load succeeds). */
  datatype Spec = Spec(name: string, repo: string, family: Family, instance: Option<Instance>)

  /** The `MODELS` dictionary: model key to entry. */
  type Table = map<string, Spec>

  const MBART_BASE_CHECKPOINT := "facebook/mbart-large-50"
  const KHMER_LANG := "km_KH"
  const CACHE_DIR := "./cache"

  /** What `load_model` asks the libraries to build for one family: for mBART
      a tokenizer with Khmer source and target tags, the shared base
      checkpoint and the entry's LoRA adapter on top; for mT5 a tokenizer and
      a model straight from the entry's locator. */
  datatype LoadPlan =
    | MBartPlan(tokenizerRepo: string, srcLang: string, tgtLang: string,
                baseCheckpoint: string, adapterRepo: string, cacheDir: string)
    | MT5Plan(tokenizerRepo: string, modelRepo: string, cacheDir: string)

  /** The construction oracle: builds the pair, or fails with `str(e)`. */
  type Constructor = LoadPlan -> Result<Instance, string>

  /** Why `load_model` raised; `Message` is the `str(e)` Python would show. */
  datatype LoadError = KeyError(key: string) | UnknownModelType | ConstructionFailed(msg: string) {
    function Message(): string {
      match this
      case KeyError(k) => "'" + k + "'"
      case UnknownModelType => "Unknown model type"
      case ConstructionFailed(m) => m
    }
  }

  /** The two-entry table both entry points start from; nothing is loaded. */
  const MODELS: Table := map[
    "model1" := Spec("Model 1 - Khmer MBart Summarization",
                     "sedtha/mBart-50-large_LoRa_kh_sumerize", FamilyOf("mbart"), None),
    "model2" := Spec("Model 2 - Khmer mT5 Summarization",
                     "angkor96/khmer-mT5-news-summarization", FamilyOf("mt5"), None)
  ]

  /** The construction `load_model` performs for an entry, or `None` when its
      family is unknown. */
  function PlanFor(spec: Spec): (r: Option<LoadPlan>)
    ensures r.None? <==> spec.family.OtherFamily?
    ensures spec.family.MBart? ==>
      && r.value.MBartPlan?
      && r.value.tokenizerRepo == spec.repo && r.value.adapterRepo == spec.repo
      && r.value.baseCheckpoint == MBART_BASE_CHECKPOINT
      && r.value.srcLang == KHMER_LANG && r.value.tgtLang == KHMER_LANG
    ensures spec.family.MT5? ==>
      && r.value.MT5Plan?
      && r.value.tokenizerRepo == spec.repo && r.value.modelRepo == spec.repo
    ensures r.Some? ==> r.value.cacheDir == CACHE_DIR
  {
    match spec.family
    case MBart => Some(MBartPlan(spec.repo, KHMER_LANG, KHMER_LANG, MBART_BASE_CHECKPOINT, spec.repo, CACHE_DIR))
    case MT5 => Some(MT5Plan(spec.repo, spec.repo, CACHE_DIR))
    case OtherFamily(_) => None
  }

  /** Two entries agree on everything but the instance slot. */
  predicate SameIdentity(a: Spec, b: Spec) {
    a.name == b.name && a.repo == b.repo && a.family == b.family
  }

  /** `after` is a state the registry can reach from `before`: the same keys
      and identities, and every filled slot still holds the same instance
      (slots only ever go from `None` to `Some`). */
  predicate Evolves(before: Table, after: Table) {
    && before.Keys == after.Keys
    && forall k :: k in before ==>
         && SameIdentity(before[k], after[k])
         && (before[k].instance.Some? ==> after[k].instance == before[k].instance)
  }

  lemma EvolvesTransitive(a: Table, b: Table, c: Table)
    requires Evolves(a, b) && Evolves(b, c)
    ensures Evolves(a, c)
  {
  }

  /** `load_model(key)`: the pair for `key`, and the registry afterwards.
      A filled slot is returned as it is; an empty one is filled only when
      construction succeeds; every failure leaves the whole registry as it
      was, so a later call retries. */
  function Load(reg: Table, key: string, construct: Constructor): (r: (Result<Instance, LoadError>, Table))
    ensures Evolves(reg, r.1)
    ensures key !in reg ==> r == (Err(KeyError(key)), reg)
    ensures key in reg && reg[key].instance.Some? ==> r == (Ok(reg[key].instance.value), reg)
    ensures key in reg && reg[key].instance.None? && reg[key].family.OtherFamily? ==> r == (Err(UnknownModelType), reg)
    ensures r.0.Err? ==> r.1 == reg
    ensures key in reg && reg[key].instance.None? && PlanFor(reg[key]).Some? ==>
      var c := construct(PlanFor(reg[key]).value);
      && (c.Ok? ==> r.0 == Ok(c.value))
      && (c.Err? ==> r.0 == Err(ConstructionFailed(c.error)))
    ensures r.0.Ok? ==> key in reg && r.1 == reg[key := reg[key].(instance := Some(r.0.value))]
    ensures r.0.Err? && r.0.error.ConstructionFailed? ==>
      && key in reg && reg[key].instance.None? && PlanFor(reg[key]).Some?
      && construct(PlanFor(reg[key]).value) == Err(r.0.error.msg)
    ensures r.0.Ok? && reg[key].instance.None? ==>
      && PlanFor(reg[key]).Some?
      && construct(PlanFor(reg[key]).value) == Ok(r.0.value)
  {
    if key !in reg then (Err(KeyError(key)), reg)
    else
      var spec := reg[key];
      match spec.instance
      case Some(inst) => (Ok(inst), reg)
      case None =>
        match PlanFor(spec)
        case None => (Err(UnknownModelType), reg)
        case Some(plan) =>
          match construct(plan)
          case Err(msg) => (Err(ConstructionFailed(msg)), reg)
          case Ok(inst) => (Ok(inst), reg[key := spec.(instance := Some(inst))])
  }

  /** Memoisation: once a load has succeeded, every later load of the same
      key, whatever the construction oracle would now do, returns the same
      pair and changes nothing. */
  lemma LoadIsMemoised(reg: Table, key: string, first: Constructor, later: Constructor)
    requires Load(reg, key, first).0.Ok?
    ensures Load(Load(reg, key, first).1, key, later) == (Load(reg, key, first).0, Load(reg, key, first).1)
  {
  }

  /** Loading a key again from the state its load left changes nothing more
      for that key: a success is reused, a failure leaves the same entry. */
  lemma LoadSettles(reg: Table, key: string, construct: Constructor)
    requires key in reg
    ensures key in Load(reg, key, construct).1
    ensures Load(Load(reg, key, construct).1, key, construct).1[key] == Load(reg, key, construct).1[key]
  {
    if Load(reg, key, construct).0.Ok? {
      LoadIsMemoised(reg, key, construct, construct);
    }
  }

  /** A failed load leaves nothing behind, so a later attempt with a
      construction that now succeeds fills the slot. */
  lemma LoadRetriesAfterFailure(reg: Table, key: string, first: Constructor, later: Constructor)
    requires Load(reg, key, first).0.Err?
    requires key in reg && reg[key].instance.None? && PlanFor(reg[key]).Some?
    requires later(PlanFor(reg[key]).value).Ok?
    ensures Load(reg, key, first).1 == reg
    ensures Load(Load(reg, key, first).1, key, later).0 == Ok(later(PlanFor(reg[key]).value).value)
    ensures Load(Load(reg, key, first).1, key, later).1[key].instance.Some?
  {
  }

  /** A load depends only on the entry it loads: two registries that agree
      on `key` give the same pair and leave the same entry behind. */
  lemma LoadDependsOnlyOnOwnEntry(reg1: Table, reg2: Table, key: string, construct: Constructor)
    requires key in reg1 && key in reg2 && reg1[key] == reg2[key]
    ensures Load(reg1, key, construct).0 == Load(reg2, key, construct).0
    ensures Load(reg1, key, construct).1[key] == Load(reg2, key, construct).1[key]
  {
  }

  /** Every state reachable from `MODELS` has exactly its two keys, and no
      load from such a state can fail with "Unknown model type". */
  lemma ModelsFamiliesAreKnown(reg: Table, key: string, construct: Constructor)
    requires Evolves(MODELS, reg)
    ensures reg.Keys == {"model1", "model2"}
    ensures Load(reg, key, construct).0 != Err(UnknownModelType)
  {
    if key in reg {
      assert key == "model1" || key == "model2";
      assert !reg[key].family.OtherFamily?;
    }
  }
}
