/**
 * The tag post-filter of the image tagger (backend/tagger_api.py,
 * `image_to_single_words_from_pil`): the caption's prompt echo is removed,
 * and the caption's tokens are filtered into at most `top_k` distinct
 * single-word tags in first-seen order.
 *
 * The captioning model and the language pipeline are not modelled: the
 * caption's tokens arrive as (text, lemma, part of speech) triples, and the
 * set of prompt lemmas (computed by the language pipeline at start-up) is a
 * parameter.
 */
module Tagger {
  import opened Common

  const ClothingPrompt := "the clothing item is"
  const StopNouns: set<string> := {"man", "woman", "person", "model", "studio", "background", "people"}
  const StopAdjs: set<string> := {}
  const DefaultTopK := 8

  /** One token of the parsed caption. */
  datatype Token = Token(text: string, lemmaText: string, pos: string)

  /** `str.isalpha()`: non-empty and every character a letter. */
  predicate IsAlpha(s: string) {
    |s| > 0 && forall i :: 0 <= i < |s| ==> IsLetter(s[i])
  }

  /** `token.lemma_.strip().lower()`. */
  function Norm(t: Token): string {
    Lower(Trim(t.lemmaText))
  }

  /** The adjective branch accepts the token. */
  predicate AdjBranch(t: Token) {
    t.pos == "ADJ" && Norm(t) !in StopAdjs && |Norm(t)| > 1
  }

  /** The noun branch accepts the token (reached only when the adjective branch does not). */
  predicate NounBranch(t: Token) {
    (t.pos == "NOUN" || t.pos == "PROPN") && Norm(t) !in StopNouns && |Norm(t)| > 1
  }

  /** The token passes both `continue` guards: its lemma is no prompt word and its text is alphabetic. */
  predicate Considered(t: Token, promptWords: set<string>) {
    Norm(t) !in promptWords && IsAlpha(t.text)
  }

  /** The token's lemma is a candidate tag. */
  predicate Keep(t: Token, promptWords: set<string>) {
    Considered(t, promptWords) && (AdjBranch(t) || NounBranch(t))
  }

  /** The candidate lemmas of `tokens`, in token order, repeats included. */
  function Kept(tokens: seq<Token>, promptWords: set<string>): (r: seq<string>)
    ensures |r| <= |tokens|
  {
    if tokens == [] then []
    else
      var last := tokens[|tokens| - 1];
      Kept(tokens[..|tokens| - 1], promptWords) + (if Keep(last, promptWords) then [Norm(last)] else [])
  }

  /** One pass of the loop body over `t`, `prev` being the tags so far (the `seen` set holds the same lemmas). */
  function Step(prev: seq<string>, t: Token, promptWords: set<string>): (r: seq<string>)
    ensures |prev| <= |r| <= |prev| + 1 && r[..|prev|] == prev
    ensures |r| == |prev| + 1 <==> Keep(t, promptWords) && Norm(t) !in prev
    ensures |r| == |prev| + 1 ==> r[|prev|] == Norm(t)
  {
    if Keep(t, promptWords) && Norm(t) !in prev then prev + [Norm(t)] else prev
  }

  /** The tags the loop collects from `tokens` with no cap: each candidate lemma the first time it is seen. */
  function TagsOf(tokens: seq<Token>, promptWords: set<string>): seq<string> {
    if tokens == [] then []
    else Step(TagsOf(tokens[..|tokens| - 1], promptWords), tokens[|tokens| - 1], promptWords)
  }

  /** `s[:k]` for a Python list and an integer `k` (a negative `k` drops the last `-k` elements). */
  function PySliceTo<T>(s: seq<T>, k: int): (r: seq<T>)
    ensures 0 <= k ==> |r| == if k < |s| then k else |s|
    ensures k < 0 ==> |r| == if |s| + k < 0 then 0 else |s| + k
    ensures r == s[..|r|]
  {
    if 0 <= k then (if k < |s| then s[..k] else s)
    else if |s| + k < 0 then []
    else s[..|s| + k]
  }

  /**
   * The filtering loop and the final slice. With `topK` at most 0 the loop
   * stops after the first token that passes the two `continue` guards, and
   * the slice then yields [].
   */
  method FilterTags(tokens: seq<Token>, promptWords: set<string>, topK: int) returns (tags: seq<string>)
    ensures tags == if topK <= 0 then [] else PySliceTo(TagsOf(tokens, promptWords), topK)
    ensures |tags| <= if topK <= 0 then 0 else topK
  {
    var seen: set<string> := {};
    var finalTags: seq<string> := [];
    var i := 0;
    while i < |tokens|
      invariant 0 <= i <= |tokens|
      invariant finalTags == TagsOf(tokens[..i], promptWords)
      invariant seen == Elements(finalTags)
      invariant if topK <= 0 then finalTags == [] else |finalTags| < topK
    {
      var considered;
      considered, finalTags, seen := ConsiderToken(tokens[i], promptWords, finalTags, seen);
      TagsOfSnoc(tokens, i, promptWords);
      i := i + 1;
      if considered && |finalTags| >= topK {
        TagsOfPrefix(tokens, i, promptWords);
        assert topK <= 0 ==> |finalTags| <= 1 && PySliceTo(finalTags, topK) == [];
        assert topK > 0 ==> |finalTags| == topK && PySliceTo(finalTags, topK) == finalTags;
        if topK > 0 {
          SliceOfExtension(TagsOf(tokens, promptWords), finalTags, topK);
        }
        break;
      }
    }
    if i == |tokens| {
      assert tokens[..i] == tokens;
      assert topK <= 0 ==> PySliceTo(finalTags, topK) == [];
      assert topK > 0 ==> PySliceTo(finalTags, topK) == finalTags;
    }
    tags := PySliceTo(finalTags, topK);
  }

  /**
   * One pass of the loop body over `token`: the two `continue` guards, then
   * the adjective and noun branches, each adding the lemma when it is not
   * yet in `seen`. `considered` says whether the guards let the token
   * through to the length check that follows.
   */
  method ConsiderToken(token: Token, promptWords: set<string>, finalTags: seq<string>, seen: set<string>)
    returns (considered: bool, tags: seq<string>, seenAfter: set<string>)
    requires seen == Elements(finalTags)
    ensures considered <==> Considered(token, promptWords)
    ensures tags == Step(finalTags, token, promptWords)
    ensures seenAfter == Elements(tags)
  {
    ElementsMembers(finalTags);
    var lem := Lower(Trim(token.lemmaText));
    assert lem == Norm(token);
    if lem in promptWords {
      return false, finalTags, seen;
    }
    if !IsAlpha(token.text) {
      return false, finalTags, seen;
    }
    considered, tags, seenAfter := true, finalTags, seen;
    if token.pos == "ADJ" && lem !in StopAdjs && |lem| > 1 {
      if lem !in seen {
        tags := finalTags + [lem];
        seenAfter := seen + {lem};
        ElementsSnoc(finalTags, lem);
      }
    } else if (token.pos == "NOUN" || token.pos == "PROPN") && lem !in StopNouns && |lem| > 1 {
      if lem !in seen {
        tags := finalTags + [lem];
        seenAfter := seen + {lem};
        ElementsSnoc(finalTags, lem);
      }
    } else {
      assert !Keep(token, promptWords);
    }
  }

  /** The set of the elements of `s`: the `seen` set beside the tag list. */
  ghost function Elements(s: seq<string>): set<string> {
    if s == [] then {} else Elements(s[..|s| - 1]) + {s[|s| - 1]}
  }

  lemma ElementsSnoc(s: seq<string>, x: string)
    ensures Elements(s + [x]) == Elements(s) + {x}
  {
    assert (s + [x])[..|s|] == s;
  }

  lemma {:induction false} ElementsMembers(s: seq<string>)
    ensures forall x :: x in Elements(s) <==> x in s
  {
    if s != [] {
      ElementsMembers(s[..|s| - 1]);
      assert forall x :: x in s <==> x in s[..|s| - 1] || x == s[|s| - 1];
    }
  }

  /** Slicing a list to `k` keeps just its first `k` elements, when it extends a list of length `k`. */
  lemma SliceOfExtension(all: seq<string>, p: seq<string>, k: int)
    requires 0 < k == |p| <= |all| && all[..|p|] == p
    ensures PySliceTo(all, k) == p
  {
  }

  /** The tags after one more token are one more step of the loop body. */
  lemma TagsOfSnoc(tokens: seq<Token>, i: nat, promptWords: set<string>)
    requires i < |tokens|
    ensures TagsOf(tokens[..i + 1], promptWords) == Step(TagsOf(tokens[..i], promptWords), tokens[i], promptWords)
  {
    assert tokens[..i + 1][..i] == tokens[..i];
  }

  /** The loop reads `tokens` left to right: the tags of a prefix are a prefix of the tags of the whole. */
  lemma {:induction false} TagsOfPrefix(tokens: seq<Token>, i: nat, promptWords: set<string>)
    requires i <= |tokens|
    ensures
      var p := TagsOf(tokens[..i], promptWords);
      |p| <= |TagsOf(tokens, promptWords)| && TagsOf(tokens, promptWords)[..|p|] == p
  {
    if i == |tokens| {
      assert tokens[..i] == tokens;
    } else {
      var init := tokens[..|tokens| - 1];
      assert init[..i] == tokens[..i];
      TagsOfPrefix(init, i, promptWords);
      var p := TagsOf(tokens[..i], promptWords);
      var q := TagsOf(init, promptWords);
      assert TagsOf(tokens, promptWords)[..|q|] == q;
      assert q[..|p|] == p;
      assert TagsOf(tokens, promptWords)[..|p|] == p;
    }
  }

  /** The tags are exactly the distinct candidate lemmas. */
  lemma {:induction false} TagsAreKept(tokens: seq<Token>, promptWords: set<string>)
    ensures SameElements(TagsOf(tokens, promptWords), Kept(tokens, promptWords))
  {
    if tokens != [] {
      TagsAreKept(tokens[..|tokens| - 1], promptWords);
    }
  }

  /** No tag occurs twice. */
  lemma {:induction false} TagsDistinct(tokens: seq<Token>, promptWords: set<string>)
    ensures NoDuplicates(TagsOf(tokens, promptWords))
  {
    if tokens != [] {
      TagsDistinct(tokens[..|tokens| - 1], promptWords);
    }
  }

  /** Every candidate lemma comes from a token that passes the guards and one of the two branches. */
  lemma {:induction false} KeptFromTokens(tokens: seq<Token>, promptWords: set<string>, x: string)
    requires x in Kept(tokens, promptWords)
    ensures exists j :: 0 <= j < |tokens| && Keep(tokens[j], promptWords) && Norm(tokens[j]) == x
  {
    var init := tokens[..|tokens| - 1];
    var last := tokens[|tokens| - 1];
    if x in Kept(init, promptWords) {
      KeptFromTokens(init, promptWords, x);
      var j :| 0 <= j < |init| && Keep(init[j], promptWords) && Norm(init[j]) == x;
      assert tokens[j] == init[j];
    } else {
      assert Keep(last, promptWords) && Norm(last) == x;
    }
  }

  /**
   * What every tag is: the normalised lemma of some token whose text is
   * alphabetic, at least two characters long and not a prompt word; a
   * stop noun can only enter through the adjective branch.
   */
  lemma TagShape(tokens: seq<Token>, promptWords: set<string>, x: string)
    requires x in TagsOf(tokens, promptWords)
    ensures x !in promptWords && |x| > 1
    ensures exists j :: 0 <= j < |tokens| && IsAlpha(tokens[j].text) && Norm(tokens[j]) == x
    ensures x in StopNouns ==> exists j :: 0 <= j < |tokens| && tokens[j].pos == "ADJ" && Norm(tokens[j]) == x
  {
    TagsAreKept(tokens, promptWords);
    KeptFromTokens(tokens, promptWords, x);
  }

  /** The capped result keeps those properties: distinct tags, each one of the uncapped tags. */
  lemma CappedTags(tokens: seq<Token>, promptWords: set<string>, topK: int)
    requires topK > 0
    ensures NoDuplicates(PySliceTo(TagsOf(tokens, promptWords), topK))
    ensures forall x :: x in PySliceTo(TagsOf(tokens, promptWords), topK) ==> x in TagsOf(tokens, promptWords)
  {
    TagsDistinct(tokens, promptWords);
  }

  /** A noun or proper noun whose lemma is a stop noun is never a candidate. */
  lemma StopNounDropped(t: Token, promptWords: set<string>)
    requires t.pos == "NOUN" || t.pos == "PROPN"
    requires Norm(t) in StopNouns
    ensures !Keep(t, promptWords)
  {
  }

  /** The position of the first occurrence of `x` in `s`, or |s| when there is none. */
  function FirstPos(s: seq<string>, x: string): (r: nat)
    ensures r <= |s|
    ensures r < |s| ==> s[r] == x
    ensures forall j :: 0 <= j < r ==> s[j] != x
  {
    if s == [] then 0
    else if s[0] == x then 0
    else 1 + FirstPos(s[1..], x)
  }

  /** The first occurrence of an element of `s` does not move when `s` grows at the end. */
  lemma FirstPosAppend(s: seq<string>, t: seq<string>, x: string)
    requires x in s
    ensures FirstPos(s + t, x) == FirstPos(s, x) < |s|
  {
    var a := FirstPos(s, x);
    assert a < |s|;
    assert (s + t)[a] == x;
    assert forall j :: 0 <= j < |s| ==> (s + t)[j] == s[j];
  }

  /** A lemma seen for the first time sits at the end of the candidates. */
  lemma FirstPosNew(s: seq<string>, x: string)
    requires x !in s
    ensures FirstPos(s + [x], x) == |s|
  {
    assert (s + [x])[|s|] == x;
    assert forall j :: 0 <= j < |s| ==> (s + [x])[j] == s[j];
  }

  /** Each element of `tags` is first seen in `kept` before the next one is. */
  predicate InFirstSeenOrder(tags: seq<string>, kept: seq<string>) {
    forall i, j :: 0 <= i < j < |tags| ==> FirstPos(kept, tags[i]) < FirstPos(kept, tags[j]) < |kept|
  }

  ghost predicate SameElements(a: seq<string>, b: seq<string>) {
    forall x :: x in a <==> x in b
  }

  /** Tags appear in the order in which their lemmas are first seen among the candidates. */
  lemma {:induction false} TagsInFirstSeenOrder(tokens: seq<Token>, promptWords: set<string>)
    ensures InFirstSeenOrder(TagsOf(tokens, promptWords), Kept(tokens, promptWords))
  {
    if tokens != [] {
      var init := tokens[..|tokens| - 1];
      var last := tokens[|tokens| - 1];
      TagsInFirstSeenOrder(init, promptWords);
      TagsAreKept(init, promptWords);
      OrderStep(TagsOf(init, promptWords), Kept(init, promptWords), last, promptWords);
    }
  }

  /** The induction step of `TagsInFirstSeenOrder`, for one more token. */
  lemma OrderStep(prev: seq<string>, keptPrev: seq<string>, last: Token, promptWords: set<string>)
    requires SameElements(prev, keptPrev)
    requires InFirstSeenOrder(prev, keptPrev)
    ensures InFirstSeenOrder(Step(prev, last, promptWords),
                             keptPrev + if Keep(last, promptWords) then [Norm(last)] else [])
  {
    var extra := if Keep(last, promptWords) then [Norm(last)] else [];
    var tags := Step(prev, last, promptWords);
    var kept := keptPrev + extra;
    forall i | 0 <= i < |prev| ensures FirstPos(kept, prev[i]) == FirstPos(keptPrev, prev[i]) < |keptPrev| {
      assert prev[i] in prev;
      FirstPosAppend(keptPrev, extra, prev[i]);
    }
    if |tags| == |prev| + 1 {
      assert Norm(last) !in keptPrev;
      assert extra == [Norm(last)];
      FirstPosNew(keptPrev, Norm(last));
      assert forall i :: 0 <= i < |prev| ==> tags[i] == prev[i];
    } else {
      assert tags == prev;
    }
  }

  /** Removes the prompt when the caption starts with it, trimming what follows; otherwise the caption is kept. */
  function StripPromptEcho(rawText: string): (caption: string)
    ensures !StartsWith(rawText, ClothingPrompt) ==> caption == rawText
    ensures StartsWith(rawText, ClothingPrompt) ==> |caption| <= |rawText| - |ClothingPrompt|
  {
    if StartsWith(rawText, ClothingPrompt) then Trim(rawText[|ClothingPrompt|..]) else rawText
  }

  /** An echoed prompt is removed and the rest recovered up to surrounding white space. */
  lemma StripPromptEchoRecovers(rest: string)
    ensures StripPromptEcho(ClothingPrompt + rest) == Trim(rest)
  {
    assert (ClothingPrompt + rest)[..|ClothingPrompt|] == ClothingPrompt;
    assert (ClothingPrompt + rest)[|ClothingPrompt|..] == rest;
  }

  /** `decode(...).lower().strip()` followed by the prompt strip. */
  function Caption(decoded: string): string {
    StripPromptEcho(Trim(Lower(decoded)))
  }
}
