/** `summarize_text` of both entry points. They share the blank-input short
    circuit, the load, the exception-to-text conversion and the placeholder;
    they differ in decoding parameters and in whether the decoded text is cut
    after its last KHMER SIGN KHAN. Tokenising, generating and decoding are one
    oracle the caller passes in. */
module Summarizer {
  import opened Wrappers
  import opened PyText
  import opened Registry

  /** `Legacy` is app.py, `Refined` is app_new.py. */
  datatype Variant = Legacy | Refined

  /** The tokenizer and `generate`/`decode` arguments, recorded as data. */
  datatype GenParams = GenParams(
    truncation: bool, maxInputTokens: nat,
    numBeams: nat, maxNewTokens: nat, earlyStopping: bool,
    skipSpecialTokens: bool)

  /** Tokenise with these parameters, generate, decode the first sequence;
      or fail with `str(e)`. */
  type Generator = (Instance, string, GenParams) -> Result<string, string>

  const MAX_INPUT_TOKENS: nat := 1024

  /** KHMER SIGN KHAN, U+17D4, the Khmer full stop. */
  const KHAN: char := '\U{17D4}'

  /** Returned when the post-processed summary is empty. */
  const PLACEHOLDER: string := "មិនអាចសង្ខេបបានទេ។"

  /** Put in front of `str(e)` when anything raises. */
  const ERROR_PREFIX: string := "កំហុស៖ "

  /** The decoding parameters: app_new.py uses 4 beams for mBART and 5 for
      every other family, capped at 125 new tokens; app.py uses 4 beams and
      300 new tokens whatever the family. Both truncate input at 1024
      tokens, stop early and skip special tokens when decoding. */
  function DecodeParams(v: Variant, family: Family): (p: GenParams)
    ensures p.truncation && p.maxInputTokens == MAX_INPUT_TOKENS
    ensures p.earlyStopping && p.skipSpecialTokens
    ensures v.Refined? ==> p.maxNewTokens == 125
    ensures v.Refined? && family.MBart? ==> p.numBeams == 4
    ensures v.Refined? && !family.MBart? ==> p.numBeams == 5
    ensures v.Legacy? ==> p.numBeams == 4 && p.maxNewTokens == 300
  {
    match v
    case Legacy => GenParams(true, MAX_INPUT_TOKENS, 4, 300, true, true)
    case Refined =>
      GenParams(true, MAX_INPUT_TOKENS, if family.MBart? then 4 else 5, 125, true, true)
  }

  /** app.py has no family-specific branch: every family decodes alike. */
  lemma LegacyParamsIgnoreFamily(f: Family, g: Family)
    ensures DecodeParams(Legacy, f) == DecodeParams(Legacy, g)
  {
  }

  /** app_new.py's clean-up: keep the longest prefix ending in KHAN, or the
      whole text when there is no KHAN. */
  function TrimAfterLastKhan(s: string): (r: string)
    ensures KHAN !in s ==> r == s
    ensures KHAN in s ==> IsPrefix(r, s) && r != [] && r[|r| - 1] == KHAN && KHAN !in s[|r|..]
  {
    match RFind(s, KHAN)
    case None => s
    case Some(i) => s[..i + 1]
  }

  /** The trimmed text is the longest prefix ending in KHAN: no longer prefix
      of the decoded text ends in KHAN. */
  lemma TrimKeepsLongestKhanPrefix(s: string, n: nat)
    requires KHAN in s
    requires 0 < n <= |s| && s[n - 1] == KHAN
    ensures n <= |TrimAfterLastKhan(s)|
  {
    var r := TrimAfterLastKhan(s);
    forall j | |r| <= j < |s| ensures s[j] != KHAN {
      assert s[j] == s[|r|..][j - |r|];
    }
  }

  /** After trimming no character follows the last KHAN, and trimming again
      changes nothing. */
  lemma TrimIdempotent(s: string)
    ensures var r := TrimAfterLastKhan(s); KHAN !in r || r[|r| - 1] == KHAN
    ensures TrimAfterLastKhan(TrimAfterLastKhan(s)) == TrimAfterLastKhan(s)
  {
    var r := TrimAfterLastKhan(s);
    if KHAN in r {
      var i := RFind(r, KHAN).value;
      assert r[|r| - 1] == KHAN;
      assert i == |r| - 1;
    }
  }

  lemma PlaceholderShape()
    ensures PLACEHOLDER != [] && Tight(PLACEHOLDER) && PLACEHOLDER[|PLACEHOLDER| - 1] == KHAN
  {
  }

  /** Turns the decoded text into the returned summary: the variant's
      trimming, then `strip()`, then the placeholder when nothing is left.
      The summary is never empty and has no surrounding whitespace. */
  function Finish(v: Variant, decoded: string): (r: string)
    ensures r != [] && Tight(r)
  {
    PlaceholderShape();
    var kept := if v.Refined? then TrimAfterLastKhan(decoded) else decoded;
    var stripped := Strip(kept);
    if stripped == [] then PLACEHOLDER else stripped
  }

  /** A decoded text with nothing but whitespace gives the placeholder, in
      both variants. */
  lemma FinishOfBlankIsPlaceholder(v: Variant, decoded: string)
    requires IsBlank(decoded)
    ensures Finish(v, decoded) == PLACEHOLDER
  {
    forall i | 0 <= i < |decoded| ensures decoded[i] != KHAN {
      assert IsSpace(decoded[i]);
    }
  }

  /** In app.py, and in app_new.py when the decoded text has no KHAN, a
      non-blank decoded text comes back stripped and otherwise unchanged. */
  lemma FinishWithoutKhanIsStrip(v: Variant, decoded: string)
    requires v.Legacy? || KHAN !in decoded
    requires !IsBlank(decoded)
    ensures Finish(v, decoded) == Strip(decoded)
  {
  }

  /** In app_new.py, when the decoded text has a KHAN, the summary ends in
      that last KHAN and is the prefix up to it with only leading whitespace
      removed: everything after the last KHAN is gone. */
  lemma FinishWithKhanEndsAtLastKhan(decoded: string)
    requires KHAN in decoded
    ensures var r := Finish(Refined, decoded);
      var t := TrimAfterLastKhan(decoded);
      && r[|r| - 1] == KHAN
      && IsSuffix(r, t)
      && IsBlank(t[..|t| - |r|])
  {
    var t := TrimAfterLastKhan(decoded);
    StripKeepsLastNonSpace(t);
    var r := Strip(t);
    var a := StripStartIndex(t);
    assert StripEndIndex(t) == |t| by {
      assert !IsSpace(t[|t| - 1]);
    }
    assert IsBlank(t[..a]) by {
      forall i | 0 <= i < a ensures IsSpace(t[..a][i]) {
        assert t[..a][i] == t[i];
      }
    }
  }

  /** A text ending in KHAN is left alone by the trimming. */
  lemma TrimKeepsKhanEnding(s: string)
    requires s != [] && s[|s| - 1] == KHAN
    ensures TrimAfterLastKhan(s) == s
  {
    TrimKeepsLongestKhanPrefix(s, |s|);
  }

  /** A KHAN-free text stays KHAN-free when stripped. */
  lemma StripOfKhanFreeIsKhanFree(s: string)
    requires KHAN !in s
    ensures KHAN !in Strip(s)
  {
    var r := Strip(s);
    var a := StripStartIndex(s);
    forall i | 0 <= i < |r| ensures r[i] != KHAN {
      assert r[i] == s[a + i];
    }
  }

  /** The app_new.py trimming leaves a finished summary alone. */
  lemma TrimKeepsFinished(decoded: string)
    ensures TrimAfterLastKhan(Finish(Refined, decoded)) == Finish(Refined, decoded)
  {
    var r := Finish(Refined, decoded);
    if r == PLACEHOLDER {
      PlaceholderShape();
      TrimKeepsKhanEnding(PLACEHOLDER);
    } else if KHAN in decoded {
      FinishWithKhanEndsAtLastKhan(decoded);
      TrimKeepsKhanEnding(r);
    } else {
      StripOfKhanFreeIsKhanFree(decoded);
    }
  }

  /** Post-processing a finished summary again returns it unchanged. */
  lemma FinishIdempotent(v: Variant, decoded: string)
    ensures Finish(v, Finish(v, decoded)) == Finish(v, decoded)
  {
    var r := Finish(v, decoded);
    if v.Refined? {
      TrimKeepsFinished(decoded);
    }
    assert r == r[0..|r|];
    StripIsTheTightWindow(r, 0, |r|);
  }

  /** `summarize_text(text, key)`: the summary, and the registry afterwards. */
  function SummarizeText(v: Variant, reg: Table, text: string, key: string,
                         construct: Constructor, generate: Generator): (r: (string, Table))
    ensures IsBlank(text) ==> r == ("", reg)
    ensures !IsBlank(text) ==> r.0 != []
    ensures Evolves(reg, r.1)
    ensures forall k :: k in reg && k != key ==> r.1[k] == reg[k]
  {
    if Strip(text) == [] then ("", reg)
    else
      var (loaded, reg') := Load(reg, key, construct);
      match loaded
      case Err(e) => (ERROR_PREFIX + e.Message(), reg')
      case Ok(inst) =>
        var params := DecodeParams(v, reg'[key].family);
        match generate(inst, text, params)
        case Err(msg) => (ERROR_PREFIX + msg, reg')
        case Ok(decoded) => (Finish(v, decoded), reg')
  }

  /** For non-blank text the registry afterwards is what the load left. A
      failed load gives the error prefix followed by `str(e)` and changes
      nothing. Once the model is loaded, the oracle is called on the text with
      the variant's decoding parameters for the entry's family; a decoded text
      is post-processed, a generation failure becomes the error prefix
      followed by its message. */
  lemma SummarizeTextOutcome(v: Variant, reg: Table, text: string, key: string,
                             construct: Constructor, generate: Generator)
    requires !IsBlank(text)
    ensures SummarizeText(v, reg, text, key, construct, generate).1 == Load(reg, key, construct).1
    ensures Load(reg, key, construct).0.Err? ==>
      SummarizeText(v, reg, text, key, construct, generate)
        == (ERROR_PREFIX + Load(reg, key, construct).0.error.Message(), reg)
    ensures Load(reg, key, construct).0.Ok? ==>
      var inst := Load(reg, key, construct).0.value;
      var out := generate(inst, text, DecodeParams(v, reg[key].family));
      && (out.Ok? ==> SummarizeText(v, reg, text, key, construct, generate).0 == Finish(v, out.value))
      && (out.Err? ==> SummarizeText(v, reg, text, key, construct, generate).0 == ERROR_PREFIX + out.error)
  {
  }

  /** Summarising the same text with the same key and oracles a second time,
      from the state the first call left, gives the same summary and changes
      nothing more: a successful load is reused, a failed one is retried and
      fails the same way. */
  lemma SummarizeTextRepeatable(v: Variant, reg: Table, text: string, key: string,
                                construct: Constructor, generate: Generator)
    ensures var first := SummarizeText(v, reg, text, key, construct, generate);
      SummarizeText(v, first.1, text, key, construct, generate) == first
  {
    var first := SummarizeText(v, reg, text, key, construct, generate);
    if !IsBlank(text) {
      var loaded := Load(reg, key, construct);
      if loaded.0.Ok? {
        LoadIsMemoised(reg, key, construct, construct);
        assert first.1[key].family == reg[key].family;
      }
    }
  }

  /** Partial-failure isolation: a key's summary depends only on that key's
      own entry, never on what happened to other keys. */
  lemma SummaryDependsOnlyOnOwnEntry(v: Variant, reg1: Table, reg2: Table, text: string, key: string,
                                     construct: Constructor, generate: Generator)
    requires key in reg1 && key in reg2 && reg1[key] == reg2[key]
    ensures SummarizeText(v, reg1, text, key, construct, generate).0
         == SummarizeText(v, reg2, text, key, construct, generate).0
  {
    LoadDependsOnlyOnOwnEntry(reg1, reg2, key, construct);
  }

  /** Summarising a key whose entry is either its starting entry or the entry
      its own load left gives the same summary as summarising from the start,
      and leaves that key holding the entry its load leaves. This is why
      repeating a key within a request changes neither its summary nor what
      the registry keeps for it. */
  lemma SummarizeFromSettledEntry(v: Variant, reg: Table, current: Table, text: string, key: string,
                                  construct: Constructor, generate: Generator)
    requires !IsBlank(text)
    requires key in reg && key in current
    requires current[key] == reg[key] || current[key] == Load(reg, key, construct).1[key]
    ensures SummarizeText(v, current, text, key, construct, generate).0
         == SummarizeText(v, reg, text, key, construct, generate).0
    ensures SummarizeText(v, current, text, key, construct, generate).1[key]
         == Load(reg, key, construct).1[key]
  {
    SummarizeTextOutcome(v, current, text, key, construct, generate);
    if current[key] == reg[key] {
      SummaryDependsOnlyOnOwnEntry(v, current, reg, text, key, construct, generate);
      LoadDependsOnlyOnOwnEntry(current, reg, key, construct);
    } else {
      var loaded := Load(reg, key, construct).1;
      LoadSettles(reg, key, construct);
      SummaryDependsOnlyOnOwnEntry(v, current, loaded, text, key, construct, generate);
      LoadDependsOnlyOnOwnEntry(current, loaded, key, construct);
      SummarizeTextOutcome(v, reg, text, key, construct, generate);
      SummarizeTextRepeatable(v, reg, text, key, construct, generate);
    }
  }
}
