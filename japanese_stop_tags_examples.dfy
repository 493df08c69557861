/** The configuration and token stream of the filter's own test cases, and
    what the model makes of them. */
module JapaneseStopTagsExamples {
  import opened Delimited
  import opened JapaneseStopTags

  /** The 25 raw stop tags of the test configuration, each written as its
      levels: `["助詞", "格助詞"]` stands for the raw tag `"助詞,格助詞"`. */
  const StopTagLevels: seq<seq<string>> := [
    ["接続詞"], ["助詞"], ["助詞", "格助詞"], ["助詞", "格助詞", "一般"], ["助詞", "格助詞", "引用"],
    ["助詞", "格助詞", "連語"], ["助詞", "係助詞"], ["助詞", "副助詞"], ["助詞", "間投助詞"], ["助詞", "並立助詞"],
    ["助詞", "終助詞"], ["助詞", "副助詞／並立助詞／終助詞"], ["助詞", "連体化"], ["助詞", "副詞化"], ["助詞", "特殊"],
    ["助動詞"], ["記号"], ["記号", "一般"], ["記号", "読点"], ["記号", "句点"],
    ["記号", "空白"], ["記号", "括弧閉"], ["その他", "間投"], ["フィラー"], ["非言語音"]
  ]

  /** The raw tags spelled by sequences of levels. */
  function JoinAll(levels: seq<seq<string>>): set<string>
  {
    set i | 0 <= i < |levels| :: Join(Separator, levels[i])
  }

  /** The raw tags themselves, as the deserialiser hands them over. */
  const StopTags: set<string> := JoinAll(StopTagLevels)

  /** How the levels below spell the raw tags of the test configuration. */
  lemma SpellingExample()
    ensures Join(Separator, ["助詞", "格助詞"]) == "助詞,格助詞"
    ensures Join(Separator, ["助詞", "*"]) == "助詞,*"
    ensures Join(Separator, ["助詞", "格助詞", "*", "*"]) == "助詞,格助詞,*,*"
  {
    JoinFour(Separator, ["助詞", "格助詞", "*", "*"]);
  }

  /** `"助詞,格助詞"` becomes `"助詞,格助詞,*,*"`. */
  lemma NormalizeExample()
    ensures FitsLevels(Join(Separator, ["助詞", "格助詞"]))
    ensures Normalize(Join(Separator, ["助詞", "格助詞"])) ==
      Join(Separator, ["助詞", "格助詞", "*", "*"])
  {
    var levels := ["助詞", "格助詞"];
    NormalizeJoin(levels);
    assert Pad(levels) == ["助詞", "格助詞", "*", "*"];
  }

  /** `"助詞"` and `"助詞,*"` collapse into the one key `"助詞,*,*,*"`. */
  lemma CollapseExample()
    ensures forall t :: t in {Join(Separator, ["助詞"]), Join(Separator, ["助詞", "*"])} ==> FitsLevels(t)
    ensures NormalizedTags({Join(Separator, ["助詞"]), Join(Separator, ["助詞", "*"])}) ==
      {Join(Separator, ["助詞", "*", "*", "*"])}
  {
    var levels := ["助詞"];
    NormalizeTrailingWildcard(levels);
    NormalizeJoin(levels);
    assert levels + [Wildcard] == ["助詞", "*"];
    assert Pad(levels) == ["助詞", "*", "*", "*"];
  }

  /** The levels of each test tag fit the four slots and are separator-free. */
  lemma StopTagLevelsFit()
    ensures forall i :: 0 <= i < |StopTagLevels| ==>
      1 <= |StopTagLevels[i]| <= Levels && SeparatorFree(Separator, StopTagLevels[i])
  {
  }

  /** No level of a test tag is the wildcard. */
  lemma StopTagLevelsNoWildcard()
    ensures forall i, k :: 0 <= i < |StopTagLevels| && 0 <= k < |StopTagLevels[i]| ==>
      StopTagLevels[i][k] != Wildcard
  {
  }

  /** No two test tags have the same levels. */
  lemma StopTagLevelsDistinct()
    ensures |StopTagLevels| == 25
    ensures forall i, j :: 0 <= i < j < |StopTagLevels| ==> StopTagLevels[i] != StopTagLevels[j]
  {
  }

  /** No test tag has `"名詞"` (noun) as its first level. */
  lemma StopTagLevelsNoNoun()
    ensures forall i :: 0 <= i < |StopTagLevels| ==>
      |StopTagLevels[i]| >= 1 && StopTagLevels[i][0] != "名詞"
  {
  }

  /** Each test tag splits back into its levels. */
  lemma StopTagSplit(t: string)
    requires t in StopTags
    ensures exists i :: 0 <= i < |StopTagLevels| && Split(Separator, t) == StopTagLevels[i]
  {
    StopTagLevelsFit();
    var i :| 0 <= i < |StopTagLevels| && t == Join(Separator, StopTagLevels[i]);
    SplitJoin(Separator, StopTagLevels[i]);
  }

  /** Every test tag fits the four slots and has no wildcard level. */
  lemma StopTagsWellFormed()
    ensures forall t :: t in StopTags ==> FitsLevels(t) && WildcardFree(t)
  {
    StopTagLevelsFit();
    StopTagLevelsNoWildcard();
    forall t | t in StopTags
      ensures FitsLevels(t) && WildcardFree(t)
    {
      StopTagSplit(t);
    }
  }

  /** Distinct sequences of separator-free levels join into distinct raw
      tags, so there are as many tags as sequences. */
  lemma {:induction false} JoinedCount(levels: seq<seq<string>>)
    requires forall i :: 0 <= i < |levels| ==>
      |levels[i]| >= 1 && SeparatorFree(Separator, levels[i])
    requires forall i, j :: 0 <= i < j < |levels| ==> levels[i] != levels[j]
    ensures |JoinAll(levels)| == |levels|
    decreases |levels|
  {
    if |levels| > 0 {
      var n := |levels| - 1;
      var init := levels[..n];
      JoinedCount(init);
      var before, after := JoinAll(init), JoinAll(levels);
      assert forall i :: 0 <= i < n ==> init[i] == levels[i];
      assert after == before + {Join(Separator, levels[n])};
      if Join(Separator, levels[n]) in before {
        var i :| 0 <= i < |init| && Join(Separator, init[i]) == Join(Separator, levels[n]);
        JoinInjective(Separator, init[i], levels[n]);
        assert false;
      }
    }
  }

  /** The 25 raw tags collide nowhere: the configuration holds 25 keys. */
  lemma StopTagsCount()
    ensures forall t :: t in StopTags ==> FitsLevels(t)
    ensures |StopTags| == 25
    ensures |NormalizedTags(StopTags)| == 25
  {
    StopTagLevelsFit();
    StopTagLevelsDistinct();
    StopTagsWellFormed();
    JoinedCount(StopTagLevels);
    NormalizedTagsExact(StopTags);
  }

  /** The tokens of すもももももももものうち as the tokenizer annotates them. */
  const Sumomo: Token := Token("すもも", 0, 9, 0, 1,
    ["名詞", "一般", "*", "*", "*", "*", "すもも", "スモモ", "スモモ"])
  const Mo1: Token := Token("も", 9, 12, 1, 1,
    ["助詞", "係助詞", "*", "*", "*", "*", "も", "モ", "モ"])
  const Momo1: Token := Token("もも", 12, 18, 2, 1,
    ["名詞", "一般", "*", "*", "*", "*", "もも", "モモ", "モモ"])
  const Mo2: Token := Token("も", 18, 21, 3, 1,
    ["助詞", "係助詞", "*", "*", "*", "*", "も", "モ", "モ"])
  const Momo2: Token := Token("もも", 21, 27, 4, 1,
    ["名詞", "一般", "*", "*", "*", "*", "もも", "モモ", "モモ"])
  const No: Token := Token("の", 27, 30, 5, 1,
    ["助詞", "連体化", "*", "*", "*", "*", "の", "ノ", "ノ"])
  const Uchi: Token := Token("うち", 30, 36, 6, 1,
    ["名詞", "非自立", "副詞可能", "*", "*", "*", "うち", "ウチ", "ウチ"])

  const Sentence: seq<Token> := [Sumomo, Mo1, Momo1, Mo2, Momo2, No, Uchi]

  /** A noun token, whose first level no test tag has, is kept. */
  lemma NounKept(token: Token)
    requires |token.details| >= 1 && token.details[0] == "名詞"
    ensures forall t :: t in StopTags ==> FitsLevels(t)
    ensures Kept(NormalizedTags(StopTags), token)
  {
    StopTagsWellFormed();
    StopTagLevelsNoNoun();
    var levels := token.details[..KeyLength(token)];
    forall t | t in StopTags
      ensures Pad(Split(Separator, t)) != Pad(levels)
    {
      StopTagSplit(t);
      assert Pad(levels)[0] == "名詞";
    }
    StoppedIffTagMatches(StopTags, token);
  }

  /** A token whose first levels are those of a test tag is dropped. */
  lemma TagDropped(token: Token, i: nat)
    requires i < |StopTagLevels| && |token.details| >= Levels
    requires token.details[..Levels] == Pad(StopTagLevels[i])
    ensures forall t :: t in StopTags ==> FitsLevels(t)
    ensures !Kept(NormalizedTags(StopTags), token)
  {
    StopTagsWellFormed();
    StopTagLevelsFit();
    var t := Join(Separator, StopTagLevels[i]);
    assert t in StopTags;
    SplitJoin(Separator, StopTagLevels[i]);
    assert Pad(token.details[..Levels]) == token.details[..Levels];
    StoppedIffTagMatches(StopTags, token);
  }

  /** すもも and the first もも are kept by the 25-tag configuration. */
  lemma SumomoMomoKept()
    ensures forall t :: t in StopTags ==> FitsLevels(t)
    ensures Kept(NormalizedTags(StopTags), Sumomo) && Kept(NormalizedTags(StopTags), Momo1)
  {
    NounKept(Sumomo);
    NounKept(Momo1);
  }

  /** The second もも and うち are kept by the 25-tag configuration. */
  lemma MomoUchiKept()
    ensures forall t :: t in StopTags ==> FitsLevels(t)
    ensures Kept(NormalizedTags(StopTags), Momo2) && Kept(NormalizedTags(StopTags), Uchi)
  {
    NounKept(Momo2);
    NounKept(Uchi);
  }

  /** Both も are dropped by the 25-tag configuration. */
  lemma MoDropped()
    ensures forall t :: t in StopTags ==> FitsLevels(t)
    ensures !Kept(NormalizedTags(StopTags), Mo1) && !Kept(NormalizedTags(StopTags), Mo2)
  {
    TagDropped(Mo1, 6);
    TagDropped(Mo2, 6);
  }

  /** の is dropped by the 25-tag configuration. */
  lemma NoDropped()
    ensures forall t :: t in StopTags ==> FitsLevels(t)
    ensures !Kept(NormalizedTags(StopTags), No)
  {
    TagDropped(No, 12);
  }

  /** A kept token followed by a dropped one filters down to the first. */
  lemma FilterPair(keys: set<string>, kept: Token, dropped: Token)
    requires |kept.details| >= 1 && |dropped.details| >= 1
    requires Kept(keys, kept) && !Kept(keys, dropped)
    ensures HasDetails([kept, dropped])
    ensures Retain(keys, [kept, dropped]) == [kept]
  {
    assert [kept, dropped][..1] == [kept];
    assert [kept][..0] == [];
  }

  /** Seven tokens of which the first, third, fifth and seventh are kept
      filter down to those four. */
  lemma FilterSeven(keys: set<string>, t1: Token, t2: Token, t3: Token, t4: Token,
                    t5: Token, t6: Token, t7: Token)
    requires |t1.details| >= 1 && |t2.details| >= 1 && |t3.details| >= 1 && |t4.details| >= 1
    requires |t5.details| >= 1 && |t6.details| >= 1 && |t7.details| >= 1
    requires Kept(keys, t1) && Kept(keys, t3) && Kept(keys, t5) && Kept(keys, t7)
    requires !Kept(keys, t2) && !Kept(keys, t4) && !Kept(keys, t6)
    ensures HasDetails([t1, t2, t3, t4, t5, t6, t7])
    ensures Retain(keys, [t1, t2, t3, t4, t5, t6, t7]) == [t1, t3, t5, t7]
  {
    var ts := [t1, t2, t3, t4, t5, t6, t7];
    FilterPair(keys, t1, t2);
    FilterPair(keys, t3, t4);
    FilterPair(keys, t5, t6);
    assert [t7][..0] == [];
    assert Retain(keys, [t7]) == [t7];
    RetainAppend(keys, [t1, t2], [t3, t4]);
    RetainAppend(keys, [t1, t2] + [t3, t4], [t5, t6]);
    RetainAppend(keys, [t1, t2] + [t3, t4] + [t5, t6], [t7]);
    assert [t1, t2] + [t3, t4] + [t5, t6] + [t7] == ts;
  }

  /** Any stop keys that keep the nouns and drop the particles filter the
      sentence down to its nouns. */
  lemma SentenceFilteredBy(keys: set<string>)
    requires Kept(keys, Sumomo) && Kept(keys, Momo1) && Kept(keys, Momo2) && Kept(keys, Uchi)
    requires !Kept(keys, Mo1) && !Kept(keys, Mo2) && !Kept(keys, No)
    ensures HasDetails(Sentence)
    ensures Retain(keys, Sentence) == [Sumomo, Momo1, Momo2, Uchi]
  {
    FilterSeven(keys, Sumomo, Mo1, Momo1, Mo2, Momo2, No, Uchi);
    assert Sentence == [Sumomo, Mo1, Momo1, Mo2, Momo2, No, Uchi];
  }

  /** With the 25-tag configuration, the particles も, も and の are dropped
      and すもも, もも, もも and うち are kept, in that order. */
  lemma SentenceFiltered()
    ensures forall t :: t in StopTags ==> FitsLevels(t)
    ensures HasDetails(Sentence)
    ensures Retain(NormalizedTags(StopTags), Sentence) == [Sumomo, Momo1, Momo2, Uchi]
  {
    SumomoMomoKept();
    MomoUchiKept();
    MoDropped();
    NoDropped();
    SentenceFilteredBy(NormalizedTags(StopTags));
  }

  /** The texts of the filtered sentence. */
  lemma SentenceTexts(kept: seq<Token>, texts: seq<string>)
    requires kept == [Sumomo, Momo1, Momo2, Uchi]
    requires |texts| == |kept| && forall i :: 0 <= i < |kept| ==> texts[i] == kept[i].text
    ensures texts == ["すもも", "もも", "もも", "うち"]
  {
  }

  /** Reading the test configuration succeeds with 25 keys. */
  method ConfigFromSliceExample() returns (r: Result<StopTagsConfig>)
    ensures r.Ok? && |r.value.tags| == 25
  {
    StopTagsCount();
    r := ConfigFromSlice(Parsed(StopTags));
  }

  /** Building the filter from the test configuration succeeds. */
  method FilterFromSliceExample() returns (r: Result<StopTagsFilter>)
    ensures r.Ok?
  {
    StopTagsWellFormed();
    r := FilterFromSlice(Parsed(StopTags));
  }

  /** The filter built from the test configuration, applied to the
      sentence, leaves すもも, もも, もも and うち. */
  method ApplyExample() returns (texts: seq<string>)
    ensures texts == ["すもも", "もも", "もも", "うち"]
  {
    StopTagsWellFormed();
    var built := FilterFromSlice(Parsed(StopTags));
    var filter := built.value;
    var tokens := new TokenVec(Sentence);
    SentenceFiltered();
    Apply(filter, tokens);
    var kept := tokens.items;
    texts := seq(|kept|, i requires 0 <= i < |kept| => kept[i].text);
    SentenceTexts(kept, texts);
  }
}
