# Japanese stop-tags token filter

Lindera's `japanese_stop_tags` token filter drops every token whose
part-of-speech tag is on a stop list. It is configured with raw tags such as
`"助詞"` or `"助詞,格助詞"`. Each raw tag is split on `,`, its levels are
written into four slots that start out as `"*"`, and the slots are joined
back with `,`, which gives a canonical key such as `"助詞,格助詞,*,*"`. To
filter, the filter builds a key for each token in the same way. If the token
has at least four details, the key uses the first four. Otherwise it uses
only the first detail. A token is kept exactly when its key is not in the
configured set. The kept tokens keep their order and replace the caller's
vector.

The model has three modules:

- `Delimited` (`delimited.dfy`): splitting a string on a one-character
  separator and joining parts with it. This stands in for Rust's
  `str::split(char)` and `[&str]::join`. It also proves that the two are
  inverse to each other.
- `JapaneseStopTags` (`japanese_stop_tags.dfy`): the configuration, the
  filter, the key of a tag and of a token, and the filtering itself.
  - `FormatTag`, `NewConfig` and `Apply` are loops, as in the source. Each
    is proved against a specification function: `Pad`/`Normalize`,
    `NormalizedTags` and `Retain`.
  - The caller's `Vec<FilteredToken>` is the class `TokenVec`. `Apply`
    replaces its contents.
- `JapaneseStopTagsExamples` (`japanese_stop_tags_examples.dfy`): the 25-tag
  configuration and the seven-token sentence すもももももももものうち from
  the source's tests.
  - Each raw tag is written as its list of levels joined with `,`.
  - For the 25 tags, the model proves the key count (25) and that the three
    particles are dropped while the four nouns are kept.

Two inputs make the code panic, and the model makes their absence a
precondition:

- A raw tag with more than four levels is not truncated. Line 24 writes
  `formatted_tag[i]` for an `i >= 4` and panics. `FitsLevels` is therefore a
  precondition of `NewConfig`, `ConfigFromSlice` and `FilterFromSlice`.
- A token with no details panics on `details[0..1]` at line 73. `HasDetails`
  is therefore a precondition of `Apply`.

## Model

| member | source | states |
|---|---|---|
| Delimited.JoinSplit | lindera-filter/src/token_filter/japanese_stop_tags.rs:22-27 | joining the parts of a split with the same separator gives back the original tag |
| Delimited.SplitJoin | lindera-filter/src/token_filter/japanese_stop_tags.rs:20-27 | splitting a join of one or more separator-free slots gives back exactly those slots, so the four-slot key splits into its four levels |
| Delimited.JoinInjective | lindera-filter/src/token_filter/japanese_stop_tags.rs:27 | two joins of non-empty separator-free slot lists are equal only if the lists are equal |
| Delimited.Join | lindera-filter/src/token_filter/japanese_stop_tags.rs:27 | joins parts with `,` between neighbours, as `join(",")` does at lines 27 and 76; its contract is empty, and its properties are stated by `JoinSplit`, `SplitJoin`, `JoinInjective`, `JoinFour` and `JoinSeparators` |
| Delimited.JoinSeparators | lindera-filter/src/token_filter/japanese_stop_tags.rs:27 | a join holds at least one separator between each two parts, and exactly that many precisely when no part contains a separator |
| Delimited.SeparatorFreeCons | lindera-filter/src/token_filter/japanese_stop_tags.rs:27 | a list of parts is separator-free exactly when its first part and the rest are |
| Delimited.JoinEqualLength | lindera-filter/src/token_filter/japanese_stop_tags.rs:27 | two equally long lists of parts with the same join are equal when one of them is separator-free, whatever the other holds |
| Delimited.JoinFour | lindera-filter/src/token_filter/japanese_stop_tags.rs:20-27 | a four-slot key is the four slots with `,` between neighbours |
| Delimited.Split | lindera-filter/src/token_filter/japanese_stop_tags.rs:22 | a split has at least one part, no part contains the separator, and there is a single part exactly when the tag has no separator |
| JapaneseStopTags.Pad | lindera-filter/src/token_filter/japanese_stop_tags.rs:20-25 | the slots are four: the given levels in their positions, then `"*"` in every slot no level filled |
| JapaneseStopTags.FormatTag | lindera-filter/src/token_filter/japanese_stop_tags.rs:20-27 | writing the levels one by one into four `"*"` slots and joining them gives the join of the padded levels |
| JapaneseStopTags.FitsLevels | lindera-filter/src/token_filter/japanese_stop_tags.rs:22-25 | a raw tag fits when it splits into at most four levels, the condition under which line 24 does not panic; it is the precondition of `Normalize`, `NewConfig` and the two `from_slice` models |
| JapaneseStopTags.Normalize | lindera-filter/src/token_filter/japanese_stop_tags.rs:20-27 | the key of a raw tag: its levels padded with `"*"` to four and joined with `,`; its contract is empty, and its properties are stated by `NormalizeLevels`, `NormalizeIdempotent`, `NormalizeJoin`, `NormalizeTrailingWildcard` and `NormalizeInjective` |
| JapaneseStopTags.NormalizedTags | lindera-filter/src/token_filter/japanese_stop_tags.rs:18-28 | the set of keys of a set of raw tags, which `NewConfig` is proved to build; its contract is empty, and its properties are stated by `NormalizedTagsInsert`, `NormalizedTagsLevels`, `NormalizedTagsBound` and `NormalizedTagsExact` |
| JapaneseStopTags.NormalizeLevels | lindera-filter/src/token_filter/japanese_stop_tags.rs:20-27 | every key has exactly four levels: the tag's own levels, then wildcards |
| JapaneseStopTags.NormalizeKey | lindera-filter/src/token_filter/japanese_stop_tags.rs:20-27 | a string that is already four separator-free levels is its own key |
| JapaneseStopTags.NormalizeIdempotent | lindera-filter/src/token_filter/japanese_stop_tags.rs:20-27 | normalising a key again leaves it unchanged |
| JapaneseStopTags.NormalizeJoin | lindera-filter/src/token_filter/japanese_stop_tags.rs:20-27 | a tag written as one to four separator-free levels has at most four levels, and its key is those levels padded with `"*"` and joined |
| JapaneseStopTags.NormalizeTrailingWildcard | lindera-filter/src/token_filter/japanese_stop_tags.rs:20-27 | adding an explicit trailing `"*"` level does not change the key, so `"助詞"` and `"助詞,*"` collide |
| JapaneseStopTags.NormalizeInjective | lindera-filter/src/token_filter/japanese_stop_tags.rs:20-27 | two tags without `"*"` levels that give the same key are the same tag |
| JapaneseStopTags.NormalizedTagsInsert | lindera-filter/src/token_filter/japanese_stop_tags.rs:19-28 | adding one raw tag to the input adds exactly its key to the keys |
| JapaneseStopTags.NormalizedTagsLevels | lindera-filter/src/token_filter/japanese_stop_tags.rs:19-28 | every configured key has exactly four levels |
| JapaneseStopTags.NormalizedTagsBound | lindera-filter/src/token_filter/japanese_stop_tags.rs:18-32 | there are never more keys than raw tags |
| JapaneseStopTags.NormalizedTagsExact | lindera-filter/src/token_filter/japanese_stop_tags.rs:18-32 | raw tags without `"*"` levels never collide: there are exactly as many keys as raw tags |
| JapaneseStopTags.NewConfig | lindera-filter/src/token_filter/japanese_stop_tags.rs:17-33 | the configured set is the set of keys of the raw tags: a key is in it exactly when some raw tag normalises to it, every key has four levels, and there are at most as many keys as tags |
| JapaneseStopTags.ConfigFromSlice | lindera-filter/src/token_filter/japanese_stop_tags.rs:35-40 | a blob the deserialiser rejects gives exactly a `Deserialize` error; a parsed blob gives the configuration holding the keys of its tags |
| JapaneseStopTags.FilterFromSlice | lindera-filter/src/token_filter/japanese_stop_tags.rs:51-59 | the deserialisation error is passed on unchanged; otherwise the filter owns the configuration built from the parsed tags |
| JapaneseStopTags.Name | lindera-filter/src/token_filter/japanese_stop_tags.rs:63-65 | the filter's name is `"japanese_stop_tags"` |
| JapaneseStopTags.KeyLength | lindera-filter/src/token_filter/japanese_stop_tags.rs:72 | the number of details used for a token's key is between one and four and never more than the token has |
| JapaneseStopTags.TokenKey | lindera-filter/src/token_filter/japanese_stop_tags.rs:71-76 | the key of a token: its first four details, or only its first one, padded with `"*"` and joined; its contract is empty, and its shape is stated by `TokenKeyShape` and `StoppedIffTagMatches` |
| JapaneseStopTags.TokenKeyShape | lindera-filter/src/token_filter/japanese_stop_tags.rs:71-76 | a token with four or more details has its first four details as its key; a token with fewer has `details[0] + ",*,*,*"`, so its second and third details are ignored |
| JapaneseStopTags.StoppedIffTagMatches | lindera-filter/src/token_filter/japanese_stop_tags.rs:71-76 | for every token with at least one detail, its key is a stop key exactly when some raw tag, padded to four levels, names the same four levels as the token's padded key details |
| JapaneseStopTags.SeparatorInDetailKept | lindera-filter/src/token_filter/japanese_stop_tags.rs:71-76 | a token one of whose key details contains `,` is never stopped, because its key has more than four levels |
| JapaneseStopTags.HasDetails | lindera-filter/src/token_filter/japanese_stop_tags.rs:73 | every token has at least one detail, the condition under which line 73 does not panic; it is the precondition of `Apply` and `Retain` |
| JapaneseStopTags.Kept | lindera-filter/src/token_filter/japanese_stop_tags.rs:76 | a token is kept when its key is not in the stop set; its contract is empty, and which tokens it keeps is stated by `StoppedIffTagMatches` and `SeparatorInDetailKept` |
| JapaneseStopTags.Retain | lindera-filter/src/token_filter/japanese_stop_tags.rs:68-81 | the filter's output is never longer than its input, and filtering nothing gives nothing |
| JapaneseStopTags.Apply | lindera-filter/src/token_filter/japanese_stop_tags.rs:67-84 | the caller's vector is replaced by the tokens whose key is not a stop key, in their original order |
| JapaneseStopTags.RetainSnoc | lindera-filter/src/token_filter/japanese_stop_tags.rs:70-79 | filtering one more token appends it exactly when it is kept |
| JapaneseStopTags.RetainAppend | lindera-filter/src/token_filter/japanese_stop_tags.rs:70-79 | filtering a concatenation is the concatenation of the filtered halves |
| JapaneseStopTags.RetainMembers | lindera-filter/src/token_filter/japanese_stop_tags.rs:70-79 | a token is in the output exactly when it is in the input and its key is not a stop key |
| JapaneseStopTags.RetainSubsequence | lindera-filter/src/token_filter/japanese_stop_tags.rs:70-81 | the output lists the input tokens unchanged, at strictly increasing positions, and a position is listed exactly when its token's key is not a stop key |
| JapaneseStopTags.SubsequenceExtend | lindera-filter/src/token_filter/japanese_stop_tags.rs:76-78 | pushing a kept token extends the order-preserving subsequence by its position |
| JapaneseStopTags.SubsequenceSkip | lindera-filter/src/token_filter/japanese_stop_tags.rs:76-78 | a stopped token leaves the order-preserving subsequence as it was |
| JapaneseStopTags.DroppedAreStopped | lindera-filter/src/token_filter/japanese_stop_tags.rs:70-79 | every input token that is not kept has a stop key |
| JapaneseStopTags.RetainIdempotent | lindera-filter/src/token_filter/japanese_stop_tags.rs:67-84 | applying the filter to its own output changes nothing |
| JapaneseStopTags.RetainNoneStopped | lindera-filter/src/token_filter/japanese_stop_tags.rs:67-84 | when no token has a stop key, every token is kept |
| JapaneseStopTagsExamples.SpellingExample | lindera-filter/src/token_filter/japanese_stop_tags.rs:102 | the level list `["助詞", "格助詞"]` spells the raw tag `"助詞,格助詞"`, and the padded list spells `"助詞,格助詞,*,*"` |
| JapaneseStopTagsExamples.NormalizeExample | lindera-filter/src/token_filter/japanese_stop_tags.rs:102 | the raw tag `"助詞,格助詞"` becomes the key `"助詞,格助詞,*,*"` |
| JapaneseStopTagsExamples.CollapseExample | lindera-filter/src/token_filter/japanese_stop_tags.rs:17-33 | the raw tags `"助詞"` and `"助詞,*"` give the single key `"助詞,*,*,*"` |
| JapaneseStopTagsExamples.StopTagLevelsFit | lindera-filter/src/token_filter/japanese_stop_tags.rs:100-124 | each of the test tags has one to four levels and none contains `,` within a level |
| JapaneseStopTagsExamples.StopTagLevelsNoWildcard | lindera-filter/src/token_filter/japanese_stop_tags.rs:100-124 | no level of a test tag is `"*"` |
| JapaneseStopTagsExamples.StopTagLevelsDistinct | lindera-filter/src/token_filter/japanese_stop_tags.rs:100-124 | there are 25 test tags and no two are the same |
| JapaneseStopTagsExamples.StopTagLevelsNoNoun | lindera-filter/src/token_filter/japanese_stop_tags.rs:100-124 | no test tag starts with the noun level `"名詞"` |
| JapaneseStopTagsExamples.StopTagSplit | lindera-filter/src/token_filter/japanese_stop_tags.rs:100-124 | each test tag splits into one of the 25 level lists |
| JapaneseStopTagsExamples.StopTagsWellFormed | lindera-filter/src/token_filter/japanese_stop_tags.rs:100-124 | every test tag has at most four levels and no `"*"` level |
| JapaneseStopTagsExamples.JoinedCount | lindera-filter/src/token_filter/japanese_stop_tags.rs:100-124 | distinct lists of separator-free levels spell as many distinct raw tags |
| JapaneseStopTagsExamples.StopTagsCount | lindera-filter/src/token_filter/japanese_stop_tags.rs:128-130 | the test configuration holds 25 raw tags and yields 25 keys |
| JapaneseStopTagsExamples.NounKept | lindera-filter/src/token_filter/japanese_stop_tags.rs:71-78 | every token whose first detail is `"名詞"` is kept by the test configuration, whatever its number of details and whatever its other details hold |
| JapaneseStopTagsExamples.TagDropped | lindera-filter/src/token_filter/japanese_stop_tags.rs:71-78 | a token whose first four details are a test tag padded with `"*"` is dropped by the test configuration |
| JapaneseStopTagsExamples.SumomoMomoKept | lindera-filter/src/token_filter/japanese_stop_tags.rs:207-225 | the test configuration keeps すもも and the first もも |
| JapaneseStopTagsExamples.MomoUchiKept | lindera-filter/src/token_filter/japanese_stop_tags.rs:207-333 | the test configuration keeps the second もも and うち |
| JapaneseStopTagsExamples.MoDropped | lindera-filter/src/token_filter/japanese_stop_tags.rs:207-333 | the test configuration drops both particles も, whose first two levels are `助詞,係助詞` |
| JapaneseStopTagsExamples.NoDropped | lindera-filter/src/token_filter/japanese_stop_tags.rs:207-333 | the test configuration drops の, whose first two levels are `助詞,連体化` |
| JapaneseStopTagsExamples.FilterPair | lindera-filter/src/token_filter/japanese_stop_tags.rs:70-79 | a kept token followed by a dropped one filters to the kept token |
| JapaneseStopTagsExamples.FilterSeven | lindera-filter/src/token_filter/japanese_stop_tags.rs:70-79 | seven tokens of which the odd-numbered ones are kept filter to those four, in order |
| JapaneseStopTagsExamples.SentenceFilteredBy | lindera-filter/src/token_filter/japanese_stop_tags.rs:207-336 | any stop keys that keep the four nouns and drop the three particles filter the sentence to the nouns |
| JapaneseStopTagsExamples.SentenceFiltered | lindera-filter/src/token_filter/japanese_stop_tags.rs:336-342 | the test configuration filters the sentence to すもも, もも, もも, うち |
| JapaneseStopTagsExamples.SentenceTexts | lindera-filter/src/token_filter/japanese_stop_tags.rs:338-342 | the kept tokens すもも, もも, もも, うち have exactly those four texts, in that order |
| JapaneseStopTagsExamples.ConfigFromSliceExample | lindera-filter/src/token_filter/japanese_stop_tags.rs:96-131 | building the configuration from the 25 test tags succeeds with 25 keys |
| JapaneseStopTagsExamples.FilterFromSliceExample | lindera-filter/src/token_filter/japanese_stop_tags.rs:134-169 | building the filter from the test tags succeeds |
| JapaneseStopTagsExamples.ApplyExample | lindera-filter/src/token_filter/japanese_stop_tags.rs:173-343 | applying the filter built from the test tags to the sentence leaves exactly four tokens, whose texts are すもも, もも, もも, うち in that order |

## Left out

- JSON deserialisation by `serde_json`: this is a foreign library. Its
  outcome is the input `ParsedConfig`, which is either `Malformed` or the
  parsed `tags` set. The error value carried inside a `Deserialize` error is
  not modelled, and neither is any `LinderaErrorKind` other than
  `Deserialize`.
- `HashSet` hashing and iteration order: sets are Dafny `set`s. `NewConfig`
  picks the raw tags in an arbitrary order, which is sound because the
  result does not depend on the order.
- `mem::swap`, `iter_mut` and `token.clone()`: ownership and borrowing are
  not modelled. `Apply` assigns the kept tokens to the caller's `TokenVec`,
  and a clone is the same value.
- The result of `apply`: it is `Ok(())` on every path that does not panic,
  so `Apply` returns nothing. Panics appear only as preconditions.
- Raw tags with more than four levels: `FitsLevels` is required, because
  the code panics on them rather than truncating them.
- Tokens without details: `HasDetails` is required, because the code panics
  on them.
- The `TokenFilter` trait and the filter registry: `Name` and `Apply` are
  the two trait methods, modelled as plain members.
- The `JapaneseStopTagsTokenFilter::new` and derived `Clone`/`Debug`/
  `Serialize`/`PartialEq` implementations: these are plain data plumbing.
  `StopTagsFilter` is a datatype holding its configuration.
- The tokenizer and dictionary that produce the token details: the
  sentence's details are fixed constants taken from the test.
- `usize` widths: byte offsets, positions and lengths are `nat`, because no
  arithmetic is done on them.
- The test's feature gating (`ipadic`, `ipadic-filter`): it is build
  configuration, not behaviour.
- JapaneseStopTags.Retain: its own contract states only the length bound
  and the empty case. What it keeps and in which order is stated by the
  lemmas `RetainMembers`, `RetainSubsequence` and `DroppedAreStopped`.
