/** The request logic of the JSON routes: `/summarize` and `/get_models` in
    both entry points, `/spellcheck` in app_new.py only. Request bodies are
    given as already-parsed fields; a missing field is `None`. */
module Routes {
  import opened Wrappers
  import opened PyText
  import opened Registry
  import opened Summarizer

  /** The message of every 400 response: "please enter text first". */
  const EMPTY_TEXT_ERROR: string := "សូមបញ្ចូលអត្ថបទសិន។"

  /** The keys used when a request names no models. */
  const DEFAULT_MODELS: seq<string> := ["model1"]

  /** One value of the `results` object. */
  datatype Entry = Entry(name: string, summary: string)

  /** The fields `/summarize` reads: `text` and `models`. */
  datatype SummarizeRequest = SummarizeRequest(text: Option<string>, models: Option<seq<string>>)

  datatype SummarizeResponse =
    | SummarizeBadRequest(error: string)
    | SummarizeOk(results: map<string, Entry>)
  {
    function Status(): nat {
      if SummarizeBadRequest? then 400 else 200
    }
  }

  /** The `for model_key in selected_models` loop: each key present in the
      registry gets an entry, named from the registry, whose summary is
      computed from the registry state the keys before it left; unknown keys
      are skipped. A key selected twice keeps its last summary. */
  function FanOut(v: Variant, reg: Table, text: string, keys: seq<string>,
                  construct: Constructor, generate: Generator): (r: (map<string, Entry>, Table))
    requires !IsBlank(text)
    ensures Evolves(reg, r.1)
    ensures forall k :: k in r.0 <==> k in keys && k in reg
    ensures forall k :: k in r.0 ==> r.0[k].name == reg[k].name && r.0[k].summary != []
    decreases |keys|
  {
    if keys == [] then (map[], reg)
    else
      var front := keys[..|keys| - 1];
      var k := keys[|keys| - 1];
      assert keys == front + [k];
      var (results, reg') := FanOut(v, reg, text, front, construct, generate);
      if k in reg' then
        var (summary, reg'') := SummarizeText(v, reg', text, k, construct, generate);
        EvolvesTransitive(reg, reg', reg'');
        (results[k := Entry(reg'[k].name, summary)], reg'')
      else
        (results, reg')
  }

  /** The fan-out touches only the entries of the keys it was given. */
  lemma {:induction false} FanOutLeavesUnselected(v: Variant, reg: Table, text: string, keys: seq<string>,
                                                  construct: Constructor, generate: Generator)
    requires !IsBlank(text)
    ensures forall k :: k in reg && k !in keys ==> FanOut(v, reg, text, keys, construct, generate).1[k] == reg[k]
    decreases |keys|
  {
    if keys != [] {
      var front := keys[..|keys| - 1];
      assert keys == front + [keys[|keys| - 1]];
      FanOutLeavesUnselected(v, reg, text, front, construct, generate);
    }
  }

  /** The last selected key's entry and summary come from summarising it
      from the registry the earlier keys left. */
  lemma FanOutLastEntry(v: Variant, reg: Table, text: string, keys: seq<string>,
                        construct: Constructor, generate: Generator)
    requires !IsBlank(text)
    requires keys != [] && keys[|keys| - 1] in reg
    ensures var before := FanOut(v, reg, text, keys[..|keys| - 1], construct, generate).1;
      var last := keys[|keys| - 1];
      var after := SummarizeText(v, before, text, last, construct, generate);
      && FanOut(v, reg, text, keys, construct, generate).0[last].summary == after.0
      && FanOut(v, reg, text, keys, construct, generate).1[last] == after.1[last]
  {
  }

  /** Selecting one more key leaves every other key's result and entry as
      they were. */
  lemma FanOutKeepsEarlierEntry(v: Variant, reg: Table, text: string, keys: seq<string>, key: string,
                                construct: Constructor, generate: Generator)
    requires !IsBlank(text)
    requires keys != [] && key != keys[|keys| - 1]
    requires key in reg && key in keys[..|keys| - 1]
    ensures FanOut(v, reg, text, keys, construct, generate).0[key]
         == FanOut(v, reg, text, keys[..|keys| - 1], construct, generate).0[key]
    ensures FanOut(v, reg, text, keys, construct, generate).1[key]
         == FanOut(v, reg, text, keys[..|keys| - 1], construct, generate).1[key]
  {
  }

  /** The lazy registry across a request: afterwards the registry holds,
      for every selected key it knows, the entry that key's own load leaves,
      so a successful load is kept for later requests. */
  lemma {:induction false} FanOutKeepsLoads(v: Variant, reg: Table, text: string, keys: seq<string>, key: string,
                                            construct: Constructor, generate: Generator)
    requires !IsBlank(text)
    requires key in reg && key in keys
    ensures FanOut(v, reg, text, keys, construct, generate).1[key] == Load(reg, key, construct).1[key]
    decreases |keys|
  {
    var front := keys[..|keys| - 1];
    var last := keys[|keys| - 1];
    assert keys == front + [last];
    if last == key {
      FanOutLastEntry(v, reg, text, keys, construct, generate);
      if key in front {
        FanOutKeepsLoads(v, reg, text, front, key, construct, generate);
      } else {
        FanOutLeavesUnselected(v, reg, text, front, construct, generate);
      }
      var before := FanOut(v, reg, text, front, construct, generate).1;
      SummarizeFromSettledEntry(v, reg, before, text, key, construct, generate);
    } else {
      FanOutKeepsLoads(v, reg, text, front, key, construct, generate);
      FanOutKeepsEarlierEntry(v, reg, text, keys, key, construct, generate);
    }
  }

  /** Partial-failure isolation across the fan-out: every selected key known
      to the registry gets exactly the summary that summarising with that key
      alone, from the starting registry, gives, however often it is selected
      and whatever the other keys' loads and generations did. A repeated key
      agrees with itself because one construction oracle and one generation
      oracle serve the whole request. */
  lemma {:induction false} FanOutIsIndependent(v: Variant, reg: Table, text: string, keys: seq<string>, key: string,
                                               construct: Constructor, generate: Generator)
    requires !IsBlank(text)
    requires key in reg && key in keys
    ensures FanOut(v, reg, text, keys, construct, generate).0[key].summary
         == SummarizeText(v, reg, text, key, construct, generate).0
    decreases |keys|
  {
    var front := keys[..|keys| - 1];
    var last := keys[|keys| - 1];
    assert keys == front + [last];
    if last == key {
      FanOutLastEntry(v, reg, text, keys, construct, generate);
      if key in front {
        FanOutKeepsLoads(v, reg, text, front, key, construct, generate);
      } else {
        FanOutLeavesUnselected(v, reg, text, front, construct, generate);
      }
      var before := FanOut(v, reg, text, front, construct, generate).1;
      SummarizeFromSettledEntry(v, reg, before, text, key, construct, generate);
    } else {
      FanOutIsIndependent(v, reg, text, front, key, construct, generate);
      FanOutKeepsEarlierEntry(v, reg, text, keys, key, construct, generate);
    }
  }

  /** `FanOutIsIndependent` and `FanOutKeepsLoads` for every selected key at once. */
  lemma FanOutSettlesSelected(v: Variant, reg: Table, text: string, keys: seq<string>,
                              construct: Constructor, generate: Generator)
    requires !IsBlank(text)
    ensures forall k :: k in reg && k in keys ==>
      && FanOut(v, reg, text, keys, construct, generate).0[k].summary == SummarizeText(v, reg, text, k, construct, generate).0
      && FanOut(v, reg, text, keys, construct, generate).1[k] == Load(reg, k, construct).1[k]
  {
    forall k | k in reg && k in keys
      ensures FanOut(v, reg, text, keys, construct, generate).0[k].summary == SummarizeText(v, reg, text, k, construct, generate).0
      ensures FanOut(v, reg, text, keys, construct, generate).1[k] == Load(reg, k, construct).1[k]
    {
      FanOutIsIndependent(v, reg, text, keys, k, construct, generate);
      FanOutKeepsLoads(v, reg, text, keys, k, construct, generate);
    }
  }

  /** The `/summarize` handler: the text is stripped; a blank one is a 400
      with nothing loaded, otherwise every selected key known to the registry
      (default `["model1"]`) gets exactly one entry and nothing else does.
      Each entry's summary is `summarize_text` of the stripped text from the
      starting registry, and each such key keeps what its own load left. */
  function HandleSummarize(v: Variant, reg: Table, req: SummarizeRequest,
                           construct: Constructor, generate: Generator): (r: (SummarizeResponse, Table))
    ensures Evolves(reg, r.1)
    ensures r.0.SummarizeBadRequest? <==> IsBlank(req.text.GetOr(""))
    ensures r.0.SummarizeBadRequest? ==> r.0.error == EMPTY_TEXT_ERROR && r.0.Status() == 400 && r.1 == reg
    ensures r.0.SummarizeOk? ==>
      var selected := req.models.GetOr(DEFAULT_MODELS);
      && r.0.Status() == 200
      && (forall k :: k in r.0.results <==> k in selected && k in reg)
      && (forall k :: k in r.0.results ==> r.0.results[k].name == reg[k].name && r.0.results[k].summary != [])
      && (forall k :: k in reg && k !in selected ==> r.1[k] == reg[k])
      && (forall k :: k in reg && k in selected ==>
            && r.0.results[k].summary == SummarizeText(v, reg, Strip(req.text.GetOr("")), k, construct, generate).0
            && r.1[k] == Load(reg, k, construct).1[k])
  {
    var text := Strip(req.text.GetOr(""));
    var selected := req.models.GetOr(DEFAULT_MODELS);
    if text == [] then (SummarizeBadRequest(EMPTY_TEXT_ERROR), reg)
    else
      var (results, reg') := FanOut(v, reg, text, selected, construct, generate);
      FanOutLeavesUnselected(v, reg, text, selected, construct, generate);
      FanOutSettlesSelected(v, reg, text, selected, construct, generate);
      (SummarizeOk(results), reg')
  }

  /** One value of the `/get_models` object. */
  datatype ModelInfo = ModelInfo(name: string)

  /** The `/get_models` handler: every registry key with its display name. */
  function GetModels(reg: Table): (r: map<string, ModelInfo>)
    ensures r.Keys == reg.Keys
    ensures forall k :: k in r ==> r[k].name == reg[k].name
  {
    map k | k in reg :: ModelInfo(reg[k].name)
  }

  /** `/get_models` reads only identities, so no sequence of loads changes
      what it returns. */
  lemma GetModelsIgnoresLoading(before: Table, after: Table)
    requires Evolves(before, after)
    ensures GetModels(after) == GetModels(before)
  {
  }

  /** What `/get_models` returns for the table both entry points ship. */
  lemma GetModelsOfModels()
    ensures GetModels(MODELS) == map[
      "model1" := ModelInfo("Model 1 - Khmer MBart Summarization"),
      "model2" := ModelInfo("Model 2 - Khmer mT5 Summarization")]
  {
  }

  datatype SpellCheckResponse<T> =
    | SpellCheckBadRequest(error: string)
    | SpellCheckOk(input: string, corrected: T)
    | SpellCheckServerError(error: string)
  {
    function Status(): nat {
      match this
      case SpellCheckBadRequest(_) => 400
      case SpellCheckOk(_, _) => 200
      case SpellCheckServerError(_) => 500
    }
  }

  /** The `/spellcheck` handler of app_new.py around an opaque corrector
      (`correct_paragraph`): a blank text is a 400 and the corrector is not
      consulted; otherwise the corrector sees the stripped text, its result
      is a 200 echoing that text, and its failure is a 500 carrying `str(e)`.
      Serialising the corrector's result happens inside the same `try`, so a
      result that cannot be serialised is also an `Err` of the corrector. */
  function HandleSpellCheck<T>(text: Option<string>, correct: string -> Result<T, string>): (r: SpellCheckResponse<T>)
    ensures r.SpellCheckBadRequest? <==> IsBlank(text.GetOr(""))
    ensures r.SpellCheckBadRequest? ==> r.error == EMPTY_TEXT_ERROR && r.Status() == 400
    ensures !IsBlank(text.GetOr("")) ==>
      var input := Strip(text.GetOr(""));
      && input != [] && Tight(input)
      && (correct(input).Ok? ==> r == SpellCheckOk(input, correct(input).value) && r.Status() == 200)
      && (correct(input).Err? ==> r == SpellCheckServerError(correct(input).error) && r.Status() == 500)
  {
    var input := Strip(text.GetOr(""));
    if input == [] then SpellCheckBadRequest(EMPTY_TEXT_ERROR)
    else
      match correct(input)
      case Ok(suggestions) => SpellCheckOk(input, suggestions)
      case Err(msg) => SpellCheckServerError(msg)
  }

  /** An empty text with the default model is refused with a 400 and loads
      nothing. */
  lemma EmptyTextIsRefused(v: Variant, construct: Constructor, generate: Generator)
    ensures HandleSummarize(v, MODELS, SummarizeRequest(Some(""), Some(["model1"])), construct, generate)
         == (SummarizeBadRequest(EMPTY_TEXT_ERROR), MODELS)
  {
  }

  /** An unknown key next to a known one yields a single entry. */
  lemma UnknownKeysAreSkipped(v: Variant, text: string, selected: seq<string>,
                              construct: Constructor, generate: Generator)
    requires !IsBlank(text)
    requires selected == ["model1", "bogus"]
    ensures HandleSummarize(v, MODELS, SummarizeRequest(Some(text), Some(selected)), construct, generate).0.results.Keys
         == {"model1"}
  {
    assert "model1" in selected && "model1" in MODELS;
    assert forall k :: k in selected && k in MODELS ==> k == "model1";
  }

  /** An omitted `models` field means `["model1"]`. */
  lemma MissingModelsMeansModel1(v: Variant, text: string, construct: Constructor, generate: Generator)
    requires !IsBlank(text)
    ensures HandleSummarize(v, MODELS, SummarizeRequest(Some(text), None), construct, generate).0.results.Keys
         == {"model1"}
  {
    assert "model1" in DEFAULT_MODELS && "model1" in MODELS;
    assert forall k :: k in DEFAULT_MODELS ==> k == "model1";
  }
}
