/** src/model.rs: the models the frontend offers, the dispatch of a
    next-token request to one of them, and the helper that cuts the prompt
    off a reply. */
module FrontendModels {
  import opened Wrappers
  import opened Seqs
  import opened Text
  import opened Backend
  import opened ClmModel

  datatype FrontendModel = ChatClm1_0 | ChatGpt3_5 | ChatGpt4o | ChatRandom

  /** `FrontendModel::name` (lines 14-21). */
  function Name(m: FrontendModel): string
  {
    match m
    case ChatClm1_0 => "ChatCLM 0.1-pre-alpha"
    case ChatGpt3_5 => "ChatGPT 3.5"
    case ChatGpt4o => "ChatGPT 4o"
    case ChatRandom => "ChatRandom"
  }

  /** The position of a model in the frontend's list. */
  function Index(m: FrontendModel): (i: nat)
    ensures i < 4
  {
    match m
    case ChatClm1_0 => 0
    case ChatGpt3_5 => 1
    case ChatGpt4o => 2
    case ChatRandom => 3
  }

  /** `FrontendModel::from_index` (lines 23-31): panics past the fourth
      model. */
  function FromIndex(index: nat): (r: Outcome<FrontendModel>)
    ensures r.Returned? <==> index < 4
    ensures r.Returned? ==> Index(r.value) == index
  {
    match index
    case 0 => Returned(ChatClm1_0)
    case 1 => Returned(ChatGpt3_5)
    case 2 => Returned(ChatGpt4o)
    case 3 => Returned(ChatRandom)
    case _ => Panicked("Invalid model index")
  }

  /** Every model is found again from its index. */
  lemma FromIndexOfIndex(m: FrontendModel)
    ensures FromIndex(Index(m)) == Returned(m)
  {
  }

  /** The four models carry four different names. */
  lemma NamesDistinct(i: nat, j: nat)
    requires i < 4 && j < 4 && i != j
    ensures Name(FromIndex(i).value) != Name(FromIndex(j).value)
  {
    var a, b := Name(FromIndex(i).value), Name(FromIndex(j).value);
    assert |a| != |b| || a[4] != b[4];
  }

  /** The longest prompt, in bytes, ChatCLM answers (line 61). */
  const MAX_PROMPT_BYTES: nat := 250

  /** `chat_clm_next_token` (lines 59-67): nothing for a prompt of more than
      250 bytes, and otherwise the prompt extended by a token of smallest
      compressed size (a search of depth 1 and width 3). */
  method ChatClmNextToken(compress: TokenCompressor, encode: string -> seq<Token>,
                          decode: seq<Token> -> Option<string>, prompt: string)
    returns (r: Option<string>)
    ensures Utf8Len(prompt) > MAX_PROMPT_BYTES ==> r == None
    ensures Utf8Len(prompt) <= MAX_PROMPT_BYTES ==>
      exists e :: e in NextTokenSizes(compress, encode(prompt))
        && e.1 == MinSize(NextTokenSizes(compress, encode(prompt)))
        && r == Some(DecodedOr(decode, encode(prompt) + [e.0], prompt + "<error>"))
  {
    if Utf8Len(prompt) > MAX_PROMPT_BYTES {
      return None;
    }
    var text, next := PredictNext(compress, encode, decode, prompt, 1, 3);
    ghost var sizes := NextTokenSizes(compress, encode(prompt));
    ghost var k :| 0 <= k < |sizes| && sizes[k].1 == MinSize(sizes);
    assert MinSize(sizes) < USIZE_MAX;
    r := Some(text);
  }

  /** `gpt4o_next_token` (lines 69-83): the request is commented out. */
  function Gpt4oNextToken(prompt: string): (r: Option<string>)
    ensures r == None
  {
    None
  }

  /** `predict_next_token` (lines 35-42). `randomReply` is what
      `random_next_token` answers; ChatGPT 3.5 falls through to it. */
  method PredictNextToken(modelIndex: nat, prompt: string, compress: TokenCompressor,
                          encode: string -> seq<Token>, decode: seq<Token> -> Option<string>,
                          randomReply: Option<string>)
    returns (r: Outcome<Option<string>>)
    ensures modelIndex >= 4 <==> r.Panicked?
    ensures modelIndex == 0 && Utf8Len(prompt) > MAX_PROMPT_BYTES ==> r == Returned(None)
    ensures modelIndex == 0 && Utf8Len(prompt) <= MAX_PROMPT_BYTES ==>
      r.Returned?
      && (exists e :: e in NextTokenSizes(compress, encode(prompt))
            && e.1 == MinSize(NextTokenSizes(compress, encode(prompt)))
            && r.value == Some(DecodedOr(decode, encode(prompt) + [e.0], prompt + "<error>")))
    ensures modelIndex == 1 || modelIndex == 3 ==> r == Returned(randomReply)
    ensures modelIndex == 2 ==> r == Returned(None)
  {
    var model := FromIndex(modelIndex);
    if model.Panicked? {
      return Panicked(model.reason);
    }
    match model.value
    case ChatClm1_0 =>
      var reply := ChatClmNextToken(compress, encode, decode, prompt);
      r := Returned(reply);
    case ChatGpt4o =>
      r := Returned(Gpt4oNextToken(prompt));
    case ChatRandom =>
      r := Returned(randomReply);
    case ChatGpt3_5 =>
      r := Returned(randomReply);
  }

  // ---------------------------------------------------------------------
  // cut_prompt (lines 93-101)

  predicate IsPrefix(p: string, s: string)
  {
    |p| <= |s| && s[..|p|] == p
  }

  /** `cut_prompt`: both texts trimmed; when the reply starts with the
      prompt, what follows it, trimmed, and otherwise the trimmed reply. The
      result never starts or ends with whitespace. */
  function CutPrompt(prompt: string, response: string): (r: string)
    ensures NoEdgeWhitespace(r)
  {
    var p, s := Trim(prompt), Trim(response);
    if IsPrefix(p, s) then Trim(s[|p|..])
    else s
  }

  /** A reply equal to the prompt is cut to nothing. */
  lemma CutPromptSelf(prompt: string)
    ensures CutPrompt(prompt, prompt) == []
  {
    var p := Trim(prompt);
    assert p[|p|..] == [];
  }

  /** A reply that does not begin with the trimmed prompt comes back
      trimmed and otherwise unchanged. */
  lemma CutPromptUnrelated(prompt: string, response: string)
    ensures !IsPrefix(Trim(prompt), Trim(response)) ==> CutPrompt(prompt, response) == Trim(response)
  {
  }

  /** A reply that continues a trimmed prompt is cut to its continuation,
      trimmed. */
  lemma CutPromptOfContinuation(prompt: string, rest: string)
    requires NoEdgeWhitespace(prompt)
    ensures CutPrompt(prompt, prompt + rest) == Trim(rest)
  {
    TrimFixesTrimmed(prompt);
    if prompt == [] {
      assert prompt + rest == rest;
      assert Trim(rest)[0..] == Trim(rest);
      TrimIdempotent(rest);
    } else {
      TrimOfContinuation(prompt, rest);
      AppendSplit(prompt, TrimEnd(rest));
      TrimOfTrimEnd(rest);
    }
  }
}
