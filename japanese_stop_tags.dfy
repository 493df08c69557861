/** The Japanese stop-tags token filter: a configuration that turns raw
    part-of-speech tags into canonical four-level keys, and a filter that
    drops every token whose own four-level key is one of them. */
module JapaneseStopTags {
  import opened Delimited

  /** The separator between the levels of a part-of-speech tag. */
  const Separator: char := ','

  /** The marker for a level that a tag leaves unspecified. */
  const Wildcard: string := "*"

  /** The number of levels in a canonical key. */
  const Levels: nat := 4

  /** The name under which the filter is registered. */
  const JapaneseStopTagsTokenFilterName: string := "japanese_stop_tags"

  /** The error kinds this filter can report. */
  datatype ErrorKind = Deserialize

  datatype Result<T> = Ok(value: T) | Err(kind: ErrorKind)

  /** What the JSON deserialiser makes of a configuration blob: either it
      rejects it, or it yields the raw `tags` set. */
  datatype ParsedConfig = Malformed | Parsed(tags: set<string>)

  /** A token handed on by the tokenizer. Only `details` is read here; the
      other fields are carried along unchanged. */
  datatype Token = Token(
    text: string,
    byteStart: nat,
    byteEnd: nat,
    position: nat,
    positionLength: nat,
    details: seq<string>)

  /** The configuration: the set of canonical stop keys. */
  datatype StopTagsConfig = StopTagsConfig(tags: set<string>)

  /** The filter owns its configuration and never changes it. */
  datatype StopTagsFilter = StopTagsFilter(config: StopTagsConfig)

  /** The caller's token vector, which `Apply` replaces. */
  class TokenVec {
    var items: seq<Token>

    constructor (items: seq<Token>)
      ensures this.items == items
    {
      this.items := items;
    }
  }

  // ---------------------------------------------------------------------
  // Canonical keys

  /** The four levels of a key: the given levels in order, then wildcards. */
  function Pad(levels: seq<string>): (slots: seq<string>)
    requires |levels| <= Levels
    ensures |slots| == Levels
    ensures forall i :: 0 <= i < |levels| ==> slots[i] == levels[i]
    ensures forall i :: |levels| <= i < Levels ==> slots[i] == Wildcard
  {
    levels + seq(Levels - |levels|, _ => Wildcard)
  }

  /** A raw tag can be normalised only when it has at most four levels:
      writing a fifth level into the four slots panics. */
  predicate FitsLevels(tag: string)
  {
    |Split(Separator, tag)| <= Levels
  }

  /** The canonical key of a raw tag. */
  function Normalize(tag: string): string
    requires FitsLevels(tag)
  {
    Join(Separator, Pad(Split(Separator, tag)))
  }

  /** The canonical keys of a set of raw tags. */
  function NormalizedTags(tags: set<string>): set<string>
    requires forall t :: t in tags ==> FitsLevels(t)
  {
    set t | t in tags :: Normalize(t)
  }

  /** A key has four levels: those of the tag, then one wildcard for each
      level the tag leaves out. */
  lemma NormalizeLevels(tag: string)
    requires FitsLevels(tag)
    ensures Split(Separator, Normalize(tag)) == Pad(Split(Separator, tag))
    ensures |Split(Separator, Normalize(tag))| == Levels
  {
    var slots := Pad(Split(Separator, tag));
    assert Separator !in Wildcard;
    assert SeparatorFree(Separator, slots);
    SplitJoin(Separator, slots);
  }

  /** A key that already has four separator-free levels is its own key. */
  lemma NormalizeKey(slots: seq<string>)
    requires |slots| == Levels && SeparatorFree(Separator, slots)
    ensures FitsLevels(Join(Separator, slots))
    ensures Normalize(Join(Separator, slots)) == Join(Separator, slots)
  {
    SplitJoin(Separator, slots);
    assert Pad(slots) == slots;
  }

  /** Normalising twice is normalising once. */
  lemma NormalizeIdempotent(tag: string)
    requires FitsLevels(tag)
    ensures FitsLevels(Normalize(tag))
    ensures Normalize(Normalize(tag)) == Normalize(tag)
  {
    NormalizeLevels(tag);
    NormalizeKey(Pad(Split(Separator, tag)));
  }

  /** The key of a tag written as separator-free levels is those levels
      padded with wildcards. */
  lemma NormalizeJoin(levels: seq<string>)
    requires 1 <= |levels| <= Levels && SeparatorFree(Separator, levels)
    ensures FitsLevels(Join(Separator, levels))
    ensures Normalize(Join(Separator, levels)) == Join(Separator, Pad(levels))
  {
    SplitJoin(Separator, levels);
  }

  /** A trailing wildcard level does not change a key, so `"助詞"` and
      `"助詞,*"` collapse into one. */
  lemma NormalizeTrailingWildcard(levels: seq<string>)
    requires 1 <= |levels| < Levels && SeparatorFree(Separator, levels)
    ensures FitsLevels(Join(Separator, levels + [Wildcard]))
    ensures FitsLevels(Join(Separator, levels))
    ensures Normalize(Join(Separator, levels + [Wildcard])) == Normalize(Join(Separator, levels))
  {
    var longer := levels + [Wildcard];
    assert Separator !in Wildcard;
    assert SeparatorFree(Separator, longer);
    NormalizeJoin(levels);
    NormalizeJoin(longer);
    PadWildcard(levels);
  }

  /** A trailing wildcard level pads to the same slots as no level. */
  lemma PadWildcard(levels: seq<string>)
    requires |levels| < Levels
    ensures Pad(levels + [Wildcard]) == Pad(levels)
  {
    var pl, ps := Pad(levels + [Wildcard]), Pad(levels);
    assert forall i :: 0 <= i < Levels ==> pl[i] == ps[i];
  }

  /** No level of the tag is the wildcard. */
  predicate WildcardFree(tag: string)
  {
    forall i :: 0 <= i < |Split(Separator, tag)| ==> Split(Separator, tag)[i] != Wildcard
  }

  /** Where one sequence of levels ends and a longer one goes on, their
      paddings differ in whether that slot holds a wildcard. */
  lemma PadAt(short: seq<string>, long: seq<string>, i: nat)
    requires i == |short| < |long| <= Levels
    ensures Pad(short)[i] == Wildcard && Pad(long)[i] == long[i]
  {
  }

  /** Two tags without wildcard levels have the same key only if they are
      the same tag. */
  lemma NormalizeInjective(a: string, b: string)
    requires FitsLevels(a) && FitsLevels(b)
    requires WildcardFree(a) && WildcardFree(b)
    requires Normalize(a) == Normalize(b)
    ensures a == b
  {
    var sa, sb := Split(Separator, a), Split(Separator, b);
    NormalizeLevels(a);
    NormalizeLevels(b);
    assert Pad(sa) == Pad(sb);
    if |sa| < |sb| {
      PadAt(sa, sb, |sa|);
      assert false;
    } else if |sb| < |sa| {
      PadAt(sb, sa, |sb|);
      assert false;
    }
    assert sa == Pad(sa)[..|sa|] == Pad(sb)[..|sb|] == sb;
    JoinSplit(Separator, a);
    JoinSplit(Separator, b);
  }

  /** Adding a raw tag adds its key. */
  lemma NormalizedTagsInsert(tags: set<string>, tag: string)
    requires forall t :: t in tags ==> FitsLevels(t)
    requires FitsLevels(tag)
    ensures forall t :: t in tags + {tag} ==> FitsLevels(t)
    ensures NormalizedTags(tags + {tag}) == NormalizedTags(tags) + {Normalize(tag)}
  {
  }

  /** Every key of a set of raw tags has four levels. */
  lemma NormalizedTagsLevels(tags: set<string>)
    requires forall t :: t in tags ==> FitsLevels(t)
    ensures forall k :: k in NormalizedTags(tags) ==> |Split(Separator, k)| == Levels
  {
    forall k | k in NormalizedTags(tags)
      ensures |Split(Separator, k)| == Levels
    {
      var t :| t in tags && Normalize(t) == k;
      NormalizeLevels(t);
    }
  }

  /** There are never more keys than raw tags. */
  lemma {:induction false} NormalizedTagsBound(tags: set<string>)
    requires forall t :: t in tags ==> FitsLevels(t)
    ensures |NormalizedTags(tags)| <= |tags|
    decreases |tags|
  {
    if tags != {} {
      var t :| t in tags;
      var rest := tags - {t};
      NormalizedTagsBound(rest);
      assert NormalizedTags(tags) == NormalizedTags(rest) + {Normalize(t)};
    }
  }

  /** Raw tags without wildcard levels never collide: there are exactly as
      many keys as tags. */
  lemma {:induction false} NormalizedTagsExact(tags: set<string>)
    requires forall t :: t in tags ==> FitsLevels(t) && WildcardFree(t)
    ensures |NormalizedTags(tags)| == |tags|
    decreases |tags|
  {
    if tags != {} {
      var t :| t in tags;
      var rest := tags - {t};
      NormalizedTagsExact(rest);
      assert NormalizedTags(tags) == NormalizedTags(rest) + {Normalize(t)};
      if Normalize(t) in NormalizedTags(rest) {
        var u :| u in rest && Normalize(u) == Normalize(t);
        NormalizeInjective(u, t);
        assert false;
      }
    }
  }

  /** Writes the given levels into four wildcard-filled slots, one by one,
      and joins the slots into a key. */
  method FormatTag(levels: seq<string>) returns (key: string)
    requires |levels| <= Levels
    ensures key == Join(Separator, Pad(levels))
  {
    var formatted := new string[Levels](_ => Wildcard);
    for i := 0 to |levels|
      invariant forall k :: 0 <= k < i ==> formatted[k] == levels[k]
      invariant forall k :: i <= k < Levels ==> formatted[k] == Wildcard
    {
      formatted[i] := levels[i];
    }
    assert formatted[..] == Pad(levels);
    key := Join(Separator, formatted[..]);
  }

  // ---------------------------------------------------------------------
  // Configuration

  /** Normalises every raw tag and collects the keys. */
  method NewConfig(tags: set<string>) returns (config: StopTagsConfig)
    requires forall t :: t in tags ==> FitsLevels(t)
    ensures config.tags == NormalizedTags(tags)
    ensures forall k :: k in config.tags <==> exists t :: t in tags && Normalize(t) == k
    ensures forall k :: k in config.tags ==> |Split(Separator, k)| == Levels
    ensures |config.tags| <= |tags|
  {
    var formattedTags: set<string> := {};
    var pending := tags;
    while pending != {}
      invariant pending <= tags
      invariant formattedTags == NormalizedTags(tags - pending)
      decreases |pending|
    {
      var tag :| tag in pending;
      var key := FormatTag(Split(Separator, tag));
      NormalizedTagsInsert(tags - pending, tag);
      assert tags - (pending - {tag}) == (tags - pending) + {tag};
      formattedTags := formattedTags + {key};
      pending := pending - {tag};
    }
    assert tags - pending == tags;
    config := StopTagsConfig(formattedTags);
    NormalizedTagsLevels(tags);
    NormalizedTagsBound(tags);
  }

  /** Builds the configuration from a deserialised blob; a blob the
      deserialiser rejects is a `Deserialize` error. */
  method ConfigFromSlice(parsed: ParsedConfig) returns (r: Result<StopTagsConfig>)
    requires parsed.Parsed? ==> forall t :: t in parsed.tags ==> FitsLevels(t)
    ensures parsed.Malformed? <==> r == Err(Deserialize)
    ensures parsed.Parsed? ==> r == Ok(StopTagsConfig(NormalizedTags(parsed.tags)))
  {
    match parsed
    case Malformed =>
      r := Err(Deserialize);
    case Parsed(tags) =>
      var config := NewConfig(tags);
      r := Ok(config);
  }

  /** Builds the filter from a deserialised blob. */
  method FilterFromSlice(parsed: ParsedConfig) returns (r: Result<StopTagsFilter>)
    requires parsed.Parsed? ==> forall t :: t in parsed.tags ==> FitsLevels(t)
    ensures parsed.Malformed? <==> r == Err(Deserialize)
    ensures parsed.Parsed? ==> r == Ok(StopTagsFilter(StopTagsConfig(NormalizedTags(parsed.tags))))
  {
    var config := ConfigFromSlice(parsed);
    match config
    case Err(kind) =>
      r := Err(kind);
    case Ok(c) =>
      r := Ok(StopTagsFilter(c));
  }

  /** The filter's registered name. */
  function Name(filter: StopTagsFilter): (name: string)
    ensures name == "japanese_stop_tags"
  {
    JapaneseStopTagsTokenFilterName
  }

  // ---------------------------------------------------------------------
  // Filtering

  /** The number of leading details that take part in a token's key: four
      when there are at least four, otherwise only the first. */
  function KeyLength(token: Token): (n: nat)
    requires |token.details| >= 1
    ensures 1 <= n <= |token.details| && n <= Levels
  {
    if |token.details| >= Levels then Levels else 1
  }

  /** A token's key. */
  function TokenKey(token: Token): string
    requires |token.details| >= 1
  {
    Join(Separator, Pad(token.details[..KeyLength(token)]))
  }

  /** With four or more details the key is the first four joined; with
      fewer it is the first detail followed by three wildcards, even when a
      second or third detail is present. */
  lemma TokenKeyShape(token: Token)
    requires |token.details| >= 1
    ensures |token.details| >= Levels ==>
      TokenKey(token) == Join(Separator, token.details[..Levels])
    ensures |token.details| < Levels ==>
      TokenKey(token) == token.details[0] + ",*,*,*"
  {
    var d := token.details;
    if |d| >= Levels {
      assert Pad(d[..Levels]) == d[..Levels];
    } else {
      assert Pad(d[..1]) == [d[0], "*", "*", "*"];
      JoinFour(Separator, Pad(d[..1]));
    }
  }

  /** A token is stopped exactly when some raw tag names the same levels
      once both are padded to four. */
  lemma StoppedIffTagMatches(tags: set<string>, token: Token)
    requires forall t :: t in tags ==> FitsLevels(t)
    requires |token.details| >= 1
    ensures TokenKey(token) in NormalizedTags(tags) <==>
      exists t :: t in tags && Pad(Split(Separator, t)) == Pad(token.details[..KeyLength(token)])
  {
    var levels := Pad(token.details[..KeyLength(token)]);
    if TokenKey(token) in NormalizedTags(tags) {
      var t :| t in tags && Normalize(t) == TokenKey(token);
      var slots := Pad(Split(Separator, t));
      assert Separator !in Wildcard;
      assert SeparatorFree(Separator, slots);
      JoinEqualLength(Separator, slots, levels);
    }
  }

  /** A token one of whose key details contains the separator is never
      stopped: its key has more than four levels, and no stop key does. */
  lemma SeparatorInDetailKept(tags: set<string>, token: Token)
    requires forall t :: t in tags ==> FitsLevels(t)
    requires |token.details| >= 1
    requires !SeparatorFree(Separator, token.details[..KeyLength(token)])
    ensures TokenKey(token) !in NormalizedTags(tags)
  {
    var levels := token.details[..KeyLength(token)];
    var i :| 0 <= i < |levels| && Separator in levels[i];
    assert Pad(levels)[i] == levels[i];
    assert Separator !in Wildcard;
    forall t | t in tags
      ensures Pad(Split(Separator, t)) != Pad(levels)
    {
      var slots := Pad(Split(Separator, t));
      assert SeparatorFree(Separator, slots);
    }
    StoppedIffTagMatches(tags, token);
  }

  /** Every token has at least one detail; the filter panics otherwise. */
  predicate HasDetails(tokens: seq<Token>)
  {
    forall i :: 0 <= i < |tokens| ==> |tokens[i].details| >= 1
  }

  /** Whether the filter keeps a token. */
  predicate Kept(stopTags: set<string>, token: Token)
    requires |token.details| >= 1
  {
    TokenKey(token) !in stopTags
  }

  /** The tokens whose key is not a stop key, in their original order. */
  function Retain(stopTags: set<string>, tokens: seq<Token>): (kept: seq<Token>)
    requires HasDetails(tokens)
    ensures |kept| <= |tokens|
    ensures |tokens| == 0 ==> kept == []
    decreases |tokens|
  {
    if |tokens| == 0 then []
    else
      var last := tokens[|tokens| - 1];
      var init := tokens[..|tokens| - 1];
      Retain(stopTags, init) + (if Kept(stopTags, last) then [last] else [])
  }

  /** Keeps the tokens whose key is not a stop key and replaces the caller's
      vector with them. */
  method Apply(filter: StopTagsFilter, tokens: TokenVec)
    requires HasDetails(tokens.items)
    modifies tokens
    ensures tokens.items == Retain(filter.config.tags, old(tokens.items))
  {
    var items := tokens.items;
    var newTokens: seq<Token> := [];
    for i := 0 to |items|
      invariant newTokens == Retain(filter.config.tags, items[..i])
    {
      var token := items[i];
      var tagsLen := if |token.details| >= Levels then Levels else 1;
      var key := FormatTag(token.details[..tagsLen]);
      assert items[..i + 1][..i] == items[..i];
      if key !in filter.config.tags {
        newTokens := newTokens + [token];
      }
    }
    assert items[..|items|] == items;
    tokens.items := newTokens;
  }

  // ---------------------------------------------------------------------
  // Properties of the filter

  /** Filtering one more token appends it when it is kept. */
  lemma RetainSnoc(stopTags: set<string>, tokens: seq<Token>, token: Token)
    requires HasDetails(tokens) && |token.details| >= 1
    ensures HasDetails(tokens + [token])
    ensures Retain(stopTags, tokens + [token]) ==
      Retain(stopTags, tokens) + (if Kept(stopTags, token) then [token] else [])
  {
    assert (tokens + [token])[..|tokens|] == tokens;
  }

  /** Filtering a concatenation filters each half. */
  lemma {:induction false} RetainAppend(stopTags: set<string>, a: seq<Token>, b: seq<Token>)
    requires HasDetails(a) && HasDetails(b)
    ensures HasDetails(a + b)
    ensures Retain(stopTags, a + b) == Retain(stopTags, a) + Retain(stopTags, b)
    decreases |b|
  {
    if |b| == 0 {
      assert a + b == a;
    } else {
      var init := b[..|b| - 1];
      assert (a + b)[..|a + b| - 1] == a + init;
      RetainAppend(stopTags, a, init);
    }
  }

  /** A token is in the output exactly when it was in the input and its key
      is not a stop key. */
  lemma {:induction false} RetainMembers(stopTags: set<string>, tokens: seq<Token>, token: Token)
    requires HasDetails(tokens)
    ensures token in Retain(stopTags, tokens) <==>
      token in tokens && |token.details| >= 1 && Kept(stopTags, token)
    decreases |tokens|
  {
    if |tokens| > 0 {
      var init := tokens[..|tokens| - 1];
      RetainMembers(stopTags, init, token);
      assert tokens == init + [tokens[|tokens| - 1]];
    }
  }

  /** The positions in the input of the tokens the filter keeps. */
  ghost function KeptPositions(stopTags: set<string>, tokens: seq<Token>): seq<nat>
    requires HasDetails(tokens)
    decreases |tokens|
  {
    if |tokens| == 0 then []
    else
      var n := |tokens| - 1;
      KeptPositions(stopTags, tokens[..n]) + (if Kept(stopTags, tokens[n]) then [n] else [])
  }

  /** `positions` lists, in increasing order, the positions of `tokens`
      whose key is not a stop key, and `kept` holds the tokens at them. */
  ghost predicate SubsequenceAt(stopTags: set<string>, tokens: seq<Token>,
                                positions: seq<nat>, kept: seq<Token>)
    requires HasDetails(tokens)
  {
    && |positions| == |kept|
    && (forall j, k :: 0 <= j < k < |positions| ==> positions[j] < positions[k])
    && (forall j :: 0 <= j < |positions| ==>
          positions[j] < |tokens| && kept[j] == tokens[positions[j]])
    && (forall i :: 0 <= i < |tokens| ==> (i in positions <==> Kept(stopTags, tokens[i])))
  }

  /** The output is the order-preserving subsequence of the input at the
      positions of the kept tokens: the positions increase, each output
      token is the input token at its position, and a position is listed
      exactly when that token's key is not a stop key. */
  lemma {:induction false} RetainSubsequence(stopTags: set<string>, tokens: seq<Token>)
    requires HasDetails(tokens)
    ensures SubsequenceAt(stopTags, tokens, KeptPositions(stopTags, tokens), Retain(stopTags, tokens))
    decreases |tokens|
  {
    if |tokens| > 0 {
      var n := |tokens| - 1;
      var init := tokens[..n];
      RetainSubsequence(stopTags, init);
      var p0, r0 := KeptPositions(stopTags, init), Retain(stopTags, init);
      if Kept(stopTags, tokens[n]) {
        SubsequenceExtend(stopTags, tokens, p0, r0);
      } else {
        SubsequenceSkip(stopTags, tokens, p0, r0);
      }
    }
  }

  /** A stopped last token leaves the subsequence of `tokens[..n]` as it is. */
  lemma SubsequenceSkip(stopTags: set<string>, tokens: seq<Token>,
                        p0: seq<nat>, r0: seq<Token>)
    requires HasDetails(tokens) && |tokens| > 0
    requires !Kept(stopTags, tokens[|tokens| - 1])
    requires SubsequenceAt(stopTags, tokens[..|tokens| - 1], p0, r0)
    ensures SubsequenceAt(stopTags, tokens, p0, r0)
  {
    var n := |tokens| - 1;
    assert forall i :: 0 <= i < n ==> tokens[i] == tokens[..n][i];
  }

  /** Extending a subsequence of `tokens[..n]` by a kept last token. */
  lemma SubsequenceExtend(stopTags: set<string>, tokens: seq<Token>,
                          p0: seq<nat>, r0: seq<Token>)
    requires HasDetails(tokens) && |tokens| > 0
    requires Kept(stopTags, tokens[|tokens| - 1])
    requires SubsequenceAt(stopTags, tokens[..|tokens| - 1], p0, r0)
    ensures SubsequenceAt(stopTags, tokens, p0 + [|tokens| - 1], r0 + [tokens[|tokens| - 1]])
  {
    var n := |tokens| - 1;
    var p, r := p0 + [n], r0 + [tokens[n]];
    assert forall j :: 0 <= j < |p0| ==> p[j] == p0[j] && r[j] == r0[j] && p0[j] < n;
    forall i | 0 <= i < |tokens|
      ensures i in p <==> Kept(stopTags, tokens[i])
    {
      if i < n {
        assert tokens[i] == tokens[..n][i];
        assert i in p <==> i in p0;
      }
    }
  }

  /** Every dropped token's key is a stop key. */
  lemma DroppedAreStopped(stopTags: set<string>, tokens: seq<Token>, i: nat)
    requires HasDetails(tokens)
    requires i < |tokens| && i !in KeptPositions(stopTags, tokens)
    ensures TokenKey(tokens[i]) in stopTags
  {
    RetainSubsequence(stopTags, tokens);
  }

  /** Filtering an already filtered sequence changes nothing. */
  lemma {:induction false} RetainIdempotent(stopTags: set<string>, tokens: seq<Token>)
    requires HasDetails(tokens)
    ensures HasDetails(Retain(stopTags, tokens))
    ensures Retain(stopTags, Retain(stopTags, tokens)) == Retain(stopTags, tokens)
    decreases |tokens|
  {
    if |tokens| > 0 {
      var n := |tokens| - 1;
      var init := tokens[..n];
      var last := tokens[n];
      var tail := if Kept(stopTags, last) then [last] else [];
      RetainIdempotent(stopTags, init);
      RetainAppend(stopTags, Retain(stopTags, init), tail);
      if Kept(stopTags, last) {
        assert [last][..0] == [];
      }
    }
  }

  /** When no token's key is a stop key, the filter keeps everything. */
  lemma {:induction false} RetainNoneStopped(stopTags: set<string>, tokens: seq<Token>)
    requires HasDetails(tokens)
    requires forall i :: 0 <= i < |tokens| ==> Kept(stopTags, tokens[i])
    ensures Retain(stopTags, tokens) == tokens
    decreases |tokens|
  {
    if |tokens| > 0 {
      var n := |tokens| - 1;
      RetainNoneStopped(stopTags, tokens[..n]);
      assert tokens[..n] + [tokens[n]] == tokens;
    }
  }
}
