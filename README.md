# JSON tagged logging, modelled in Dafny

This project models the core of `rails-json-tagged-logging`, a Ruby library that makes
Rails logs one JSON object per line. Tags pushed with `logger.tagged(...)` become part
of that object.

- **`JSONFormatter`** (`json_formatter.dfy`, proved in `json_formatter_props.dfy`)
  builds the record for one log call. The parts come in a fixed order:
  - the enabled metadata fields `level`, `timestamp` and `progname`;
  - the tags of a Hash message's `:tags` list that are Hashes, or Strings of
    `key=value` pairs, which are deep-merged into the record and removed from the list;
  - the opaque tags left under `tags`;
  - the message, deep-merged last or stored under `message`.

  `hashify_tag` is a hand-written scanner (`tag_syntax.dfy`). It is proved to accept
  exactly the strings the anchored check `\A(([.\w]+)=([^\s]*)\s?)+\Z` accepts, read
  literally, so that the optional whitespace may be missing between any two pairs. Dotted keys are expanded into
  nested Hashes on an auto-vivifying Hash, with the exceptions Ruby raises. Hash
  semantics live in `values.dfy`:
  - `Hash#[]=`;
  - `delete`;
  - `merge!`;
  - ActiveSupport's `deep_merge!`;
  - insertion order;
  - Symbol and String keys kept apart;
  - `to_json` as a one-line text.
- **`JSONTaggedLogging::Formatter#call`, `JSONTaggedLogging.new` and `tagged`**
  (`tagged_logging.dfy`, proved in `tagged_logging_props.dfy`).
  - `#call` wraps the message with the current tags.
  - Each logger writes to a `Device` through a `TagFormatter` object that holds its tag
    stack.
  - `tagged` with a block pushes and pops that stack around the block.
  - `tagged` without a block derives a new logger with its own formatter.
  - A block is a script of log calls and nested `tagged` blocks (`Action`).
  - `Play` is the reference meaning of a script for one logger.
- **`TaggedBroadcastLogger#tagged`** (`broadcast.dfy`, proved in `broadcast_props.dfy`).
  - A broadcast logger holds loggers that may or may not respond to `tagged`.
  - A log call reaches each logger in turn.
  - The block form folds the block into one nested `tagged` call per capable logger,
    the last logger outermost, and returns the broadcast logger.
  - The non-block form maps every capable logger to its derived logger and assembles
    a new broadcast logger.
  - `PlayAll` is the reference meaning of a script for a broadcast.
  - The methods are proved against `PlayAll`. For scripts whose messages no formatter
    changes (`InertScript`), `PlayAll` is proved to be each logger running the script
    on its own.

The block form of the broadcast logger yields the broadcast logger itself. The model
shows this by running the block's script through the broadcast logger's own `Run`. The
Hash `Formatter#call` builds holds a copy of the tag stack. Values here are immutable, so
later filtering of that list can never reach the stack.

The caller's message is another matter. `JSONFormatter#call` deletes `:tags` from the
Hash it is given, and prunes the collection it found there in place. The JSON tagging
builds that Hash with `merge!`, which shares the collection with the caller's Hash.
`BroadcastLogger` hands one message object to every logger. So the model has each
formatter return what it left of the message (`Handed`), and a broadcast log call hands
that to the next logger (`Outcomes`).

Where the library's own description and its code differ, the model follows the code:
- a pair needs its `=`; its value may be empty;
- a pair is closed by whitespace only, so `a=bc=d` is one pair whose value is `bc=d`;
- a dotted key is never treated as an opaque tag. When it splits into fewer than two
  parts (`a.=x`), it raises ArgumentError. A String above the last level of its path
  raises TypeError. A String at the last level has the first occurrence of the last
  part replaced by the value, or raises IndexError when there is none. A trailing dot
  after two or more parts (`a.b.=x`) is dropped by `split`;
- `:tags` left holding a value without `empty?` raises `NoMethodError`;
- behind a `JSONFormatter`, an untagged plain message is still written as
  `{"level":…,"message":…}`, not as the bare text.

## Model

| member | source | states |
|---|---|---|
| Values.Put | lib/json_tagged_logging/json_formatter.rb:15-17 | `h[k] = v`: the keys stay in place when `k` is present, else `k` is appended last |
| Values.PutGet | lib/json_tagged_logging/json_formatter.rb:48 | after `h[k] = v`, `k` holds `v` and every other key holds what it held |
| Values.PutMembers | lib/json_tagged_logging/json_formatter.rb:48 | every entry after `h[k] = v` is the new entry or one that was there |
| Values.PutAt | lib/json_tagged_logging/json_formatter.rb:48 | storing under a present key replaces that entry in its position |
| Values.PutNew | lib/json_tagged_logging/json_formatter.rb:15-17 | storing a new key appends exactly that entry |
| Values.Delete | lib/json_tagged_logging/json_formatter.rb:24 | `h.delete(k)` keeps only entries of `h` without key `k`, and changes nothing when `k` is absent |
| Values.DeleteGet | lib/json_tagged_logging/json_formatter.rb:24 | after `delete(k)`, `k` is missing and every other key holds what it held |
| Values.DeleteAbsent | lib/json_tagged_logging/json_formatter.rb:29 | after `delete(k)` the key is gone |
| Values.DeleteKeepsPrefix | lib/json_tagged_logging/json_formatter.rb:29 | deleting a key leaves a leading run of other keys in place |
| Values.GetNone | lib/json_tagged_logging/json_formatter.rb:23 | `h[k]` is nil exactly when `k` is not a key |
| Values.GetFound | lib/json_tagged_logging/json_formatter.rb:23 | `h[k]` is the value of the first entry with key `k` |
| Values.Get | lib/json_tagged_logging/json_formatter.rb:23 | `h[k]`: the value of the first entry with key `k`, or nil; stated by `GetNone` and `GetFound` |
| Values.NewKeysSpec | lib/json_tagged_logging/json_formatter.rb:32 | the keys a merge appends are exactly those of `b` not in `a` |
| Values.DeepMerge | lib/json_tagged_logging/json_formatter.rb:27 | `deep_merge!`: stated key by key by `DeepMergeGet`, its key order by `DeepMergeKeys`, its well-formedness by `DeepMergeWellFormed` |
| Values.Merge | lib/json_tagged_logging.rb:28 | `merge!`, shallow: stated by `MergeKeys` and `MergeGet` |
| Values.DeepMergeKeys | lib/json_tagged_logging/json_formatter.rb:32 | `deep_merge!` keeps `a`'s keys in order and appends `b`'s new keys in order |
| Values.DeepMergeGet | lib/json_tagged_logging/json_formatter.rb:32 | `deep_merge!`, key by key: `b` wins unless both sides hold Hashes, which merge recursively; one-sided keys survive |
| Values.DeepMergeElsewhere | lib/json_tagged_logging/json_formatter.rb:27 | a key `b` lacks keeps its value |
| Values.DeepMergeKeepsOrder | lib/json_tagged_logging/json_formatter.rb:32 | the old keys are a prefix of the merged keys |
| Values.DeepMergeFresh | lib/json_tagged_logging/json_formatter.rb:27 | merging disjoint keys appends `b` as it is |
| Values.MergeKeys | lib/json_tagged_logging.rb:28 | `merge!` keeps `a`'s keys in order and appends `b`'s new keys |
| Values.MergeGet | lib/json_tagged_logging.rb:28 | `merge!`, key by key: `b`'s entries win, `a`'s other entries survive |
| Values.PutWellFormed | lib/json_tagged_logging/json_formatter.rb:15-17 | `[]=` never duplicates a key, at any depth |
| Values.DeleteWellFormed | lib/json_tagged_logging/json_formatter.rb:24 | `delete` never duplicates a key |
| Values.DeepMergeWellFormed | lib/json_tagged_logging/json_formatter.rb:32 | deep-merging two Hashes with unique keys gives unique keys at every depth |
| Values.Render | lib/json_tagged_logging/json_formatter.rb:36 | `to_json` text never contains a newline, whatever the strings hold |
| TagSyntax.KeyRunSpec | lib/json_tagged_logging/json_formatter.rb:4 | the key run is all `[.\w]` characters and is as long as possible |
| TagSyntax.ValueRunSpec | lib/json_tagged_logging/json_formatter.rb:4 | the value run has no whitespace and is as long as possible |
| TagSyntax.FirstPair | lib/json_tagged_logging/json_formatter.rb:4 | the first match consumes at least one character |
| TagSyntax.FirstPairSound | lib/json_tagged_logging/json_formatter.rb:4 | the first match is a valid pair, and its text followed by the rest is the input |
| TagSyntax.FirstPairOf | lib/json_tagged_logging/json_formatter.rb:4 | at the start of a valid pair's text, the match found is that pair |
| TagSyntax.ScanPairs | lib/json_tagged_logging/json_formatter.rb:42 | `scan(TAG_EXTRACTION_RE)`: stated by `ScanSound` and `ScanComplete` |
| TagSyntax.ScanSound | lib/json_tagged_logging/json_formatter.rb:42 | the scanner's matches read back to the input and are chained valid pairs |
| TagSyntax.ScanComplete | lib/json_tagged_logging/json_formatter.rb:42 | on a chained text the scanner finds exactly the pairs it is made of |
| TagSyntax.CloseWithNewline | lib/json_tagged_logging/json_formatter.rb:5 | `\Z`: a final newline can close the last pair |
| TagSyntax.Extractable | lib/json_tagged_logging/json_formatter.rb:40 | `tag =~ TAG_EXTRACTION_CHECK_RE`: the whole tag is a chain of pairs, as `ExtractableIffMatches` states |
| TagSyntax.ExtractableMatches | lib/json_tagged_logging/json_formatter.rb:4-5 | a tag the scanner accepts matches the anchored grammar |
| TagSyntax.MatchesExtractable | lib/json_tagged_logging/json_formatter.rb:4-5 | a tag matching the anchored grammar is accepted by the scanner |
| TagSyntax.ExtractableIffMatches | lib/json_tagged_logging/json_formatter.rb:4-5 | `tag =~ TAG_EXTRACTION_CHECK_RE` holds exactly when the tag matches the grammar |
| TagSyntax.RechainSound | lib/json_tagged_logging/json_formatter.rb:5 | any split of a text into valid pairs, with or without whitespace after each, regroups into a chained split of the same text |
| TagSyntax.RegexIffMatches | lib/json_tagged_logging/json_formatter.rb:5 | the literal regular expression, whose `\s?` may be empty between pairs, accepts exactly what the chained grammar accepts |
| TagSyntax.ExtractableIffRegex | lib/json_tagged_logging/json_formatter.rb:40 | `tag =~ TAG_EXTRACTION_CHECK_RE`, read literally, holds exactly when the scanner accepts the tag |
| TagSyntax.SplitAll | lib/json_tagged_logging/json_formatter.rb:45 | splitting gives at least one field, none containing the separator |
| TagSyntax.SplitDots | lib/json_tagged_logging/json_formatter.rb:45 | `k.split(".")`: stated by `SplitAll`, `SplitJoin`, `DropTrailingEmpty`, `SplitTwo` and `TrailingDot` |
| TagSyntax.SplitJoin | lib/json_tagged_logging/json_formatter.rb:45 | joining the fields again restores the text |
| TagSyntax.JoinSplit | lib/json_tagged_logging/json_formatter.rb:45 | splitting fields joined by a separator none of them holds gives the fields back |
| TagSyntax.SplitDotsJoin | lib/json_tagged_logging/json_formatter.rb:45 | `a.b.c` with dot-free parts and a non-empty last part splits into exactly those parts |
| TagSyntax.IndexOf | lib/json_tagged_logging/json_formatter.rb:44 | `k.index(".")` is the first dot |
| TagSyntax.DropTrailingEmpty | lib/json_tagged_logging/json_formatter.rb:45 | `split` drops the trailing empty fields and only them |
| TagSyntax.SplitTwo | lib/json_tagged_logging/json_formatter.rb:45-46 | `prefix.name` splits into exactly `[prefix, name]` |
| TagSyntax.TrailingDot | lib/json_tagged_logging/json_formatter.rb:45-46 | `name.` splits into fewer than two fields |
| JsonFormatter.Init | lib/json_tagged_logging/json_formatter.rb:7-11 | the level is written when `level` or an explicit `severity: true` is set; the timestamp and progname flags are the options given |
| JsonFormatter.FindFrom | lib/json_tagged_logging/json_formatter.rb:46 | the first occurrence of a pattern at or after a position, or none |
| JsonFormatter.ReplaceFirst | lib/json_tagged_logging/json_formatter.rb:46 | `str[pat] = v` raises exactly when `pat` does not occur |
| JsonFormatter.Dig | lib/json_tagged_logging/json_formatter.rb:46 | `dig(*prefix)[last] = v` at any depth: stated by `DigSets`, `DigFrame`, `DigIntoString`, `DigThroughNonHash`, `StoreDotted` and `TrailingDotRaises` |
| JsonFormatter.At | lib/json_tagged_logging/json_formatter.rb:46 | the value at a path through nested Hashes, if any: stated by `DigSets` and `StoreDeep` |
| JsonFormatter.Diggable | lib/json_tagged_logging/json_formatter.rb:41-46 | every level of the path is missing or a Hash, so the auto-vivifying `dig` reaches the bottom: stated by `DigSets` |
| JsonFormatter.StorePair | lib/json_tagged_logging/json_formatter.rb:44-49 | one pass of the `scan` loop body: stated by `StoreFlat`, `StoreDotted`, `StoreDeep`, `StoreDeepRaises`, `StoreIntoString` and `DigTagHash` |
| JsonFormatter.StorePairs | lib/json_tagged_logging/json_formatter.rb:42-50 | the whole `scan` loop: stated by `StorePairsTagHash`, `ExtractsLiteralValues`, `StoreNested` and, one pair at a time, by the lemmas of `StorePair` |
| JsonFormatter.Hashify | lib/json_tagged_logging/json_formatter.rb:39-55 | `hashify_tag`: stated by `HashifyOpaque`, `HashifiedMatches`, `HashifiedString` and `HashifyScanned` |
| JsonFormatter.HoistStep | lib/json_tagged_logging/json_formatter.rb:26-27 | one entry of the `delete_if` block: stated by `HoistStepMerges` |
| JsonFormatter.Filter | lib/json_tagged_logging/json_formatter.rb:25 | `delete_if` keeps only entries of the input, and no more of them |
| JsonFormatter.Hoist | lib/json_tagged_logging/json_formatter.rb:25-28 | the loop decides the fate of every entry it walks |
| JsonFormatter.HoistMarks | lib/json_tagged_logging/json_formatter.rb:25-28 | each entry is deleted exactly when it is hoisted |
| JsonFormatter.Survivors | lib/json_tagged_logging/json_formatter.rb:25-28 | what `delete_if` keeps: stated by `FilterMarks`, `FilterFieldMarks` and `SurvivorsOpaque` |
| JsonFormatter.IsEmpty | lib/json_tagged_logging/json_formatter.rb:29 | `empty?`: raises for a value without it; stated by `DropOutcome` |
| JsonFormatter.DropEmptyTags | lib/json_tagged_logging/json_formatter.rb:29 | dropping an emptied `tags`: stated by `DropOutcome`, `DropElsewhere` and `DropKeepsOrder` |
| JsonFormatter.Meta | lib/json_tagged_logging/json_formatter.rb:14-17 | the metadata of `log`: stated by `MetaFields` and `MetaLacks` |
| JsonFormatter.Stage | lib/json_tagged_logging/json_formatter.rb:23-30 | the Hash branch before the final merge: stated by `TagsOutcome`, `StageElsewhere`, `StageOrder`, `StagedMessage` and `StageAllHoisted` |
| JsonFormatter.Record | lib/json_tagged_logging/json_formatter.rb:13-34 | the Hash `call` builds: stated by `PlainMessage`, `MessageMergedLast`, `NoHoisting` and `ExampleRecord` |
| JsonFormatter.Remains | lib/json_tagged_logging/json_formatter.rb:23-24 | the caller's Hash after `msg.delete(:tags)`: stated by `HandedDirect` and `HandedFields` |
| JsonFormatter.Pruned | lib/json_tagged_logging/json_formatter.rb:25-28 | the caller's `:tags` collection after `delete_if`: stated by `SurvivorsOpaque` and `HandedFields` |
| JsonFormatter.Format | lib/json_tagged_logging/json_formatter.rb:36 | the line exists exactly when the record does, and is one line ended by exactly one newline |
| JsonFormatter.Formatter.constructor | lib/json_tagged_logging/json_formatter.rb:7-11 | the formatter's configuration is the one the options give |
| JsonFormatter.Formatter.HashifyTag | lib/json_tagged_logging/json_formatter.rb:39-55 | the `scan` loop over the auto-vivifying Hash computes `Hashify` |
| JsonFormatter.Formatter.HoistTags | lib/json_tagged_logging/json_formatter.rb:25-28 | the `delete_if` loop computes `Hoist` |
| JsonFormatter.Formatter.StageMessage | lib/json_tagged_logging/json_formatter.rb:23-30 | the Hash branch up to the final merge computes `Stage`, and the collection it filters ends as `Pruned` says, promised only when a record comes back |
| JsonFormatter.Formatter.MetaLog | lib/json_tagged_logging/json_formatter.rb:14-17 | the successive writes of `log` compute `Meta` |
| JsonFormatter.Formatter.Call | lib/json_tagged_logging/json_formatter.rb:13-37 | `call` returns the line `Format` specifies, or the exception; it takes `:tags` out of the caller's own Hash when that Hash holds a collection there (`Remains`), and when it returns a line the collection it filtered holds only the entries not hoisted (`Pruned`) |
| JsonFormatter.Formatter.Build | lib/json_tagged_logging/json_formatter.rb:14-34 | the Hash `call` builds is `Record`, or the exception; the collection it filters ends as `Pruned` says, promised only when a record comes back |
| JsonFormatterProps.MetaFields | lib/json_tagged_logging/json_formatter.rb:7-17 | `level`, `timestamp` and `progname` appear exactly when enabled, in that order, with the values given |
| JsonFormatterProps.MetaLacks | lib/json_tagged_logging/json_formatter.rb:14-17 | the metadata never holds `message` or `tags` |
| JsonFormatterProps.PlainMessage | lib/json_tagged_logging/json_formatter.rb:33 | a non-Hash message gives the metadata followed by `message: msg`, and nothing else |
| JsonFormatterProps.HashifyOpaque | lib/json_tagged_logging/json_formatter.rb:40-54 | a tag that is not a String of pairs comes back unchanged |
| JsonFormatterProps.HashifiedMatches | lib/json_tagged_logging/json_formatter.rb:40 | only a String matching the grammar becomes a Hash |
| JsonFormatterProps.StoreFlat | lib/json_tagged_logging/json_formatter.rb:47-48 | without dots, each key holds the literal value of its last pair, and nothing raises |
| JsonFormatterProps.StoreDotted | lib/json_tagged_logging/json_formatter.rb:44-46 | `prefix.name=v` sets `name` inside the `prefix` Hash, keeps its siblings, and leaves other keys alone |
| JsonFormatterProps.TrailingDotRaises | lib/json_tagged_logging/json_formatter.rb:45-46 | `a.=x` makes `dig` run without keys: ArgumentError |
| JsonFormatterProps.StoreIntoString | lib/json_tagged_logging/json_formatter.rb:46 | a dotted key over a String replaces the first occurrence of `name`, or raises IndexError |
| JsonFormatterProps.PutTagHash | lib/json_tagged_logging/json_formatter.rb:48 | storing a String or tag Hash keeps a tag Hash well formed |
| JsonFormatterProps.InnerTagHash | lib/json_tagged_logging/json_formatter.rb:46 | a Hash nested in a tag Hash is a tag Hash |
| JsonFormatterProps.DigTagHash | lib/json_tagged_logging/json_formatter.rb:46 | `dig(...)[last] = v` keeps the tag Hash well formed |
| JsonFormatterProps.StorePairsTagHash | lib/json_tagged_logging/json_formatter.rb:42-50 | the whole `scan` loop keeps the tag Hash well formed |
| JsonFormatterProps.HashifiedString | lib/json_tagged_logging/json_formatter.rb:40-51 | an extracted tag has String keys only, never twice, so never `:tags` |
| JsonFormatterProps.HashifyScanned | lib/json_tagged_logging/json_formatter.rb:40-51 | a String made of chained pairs is hashified from exactly those pairs |
| JsonFormatterProps.ExtractsLiteralValues | lib/json_tagged_logging/json_formatter.rb:42-48 | undotted pairs give every key the literal text of its last value, uncoerced |
| JsonFormatterProps.StoreDottedFirst | lib/json_tagged_logging/json_formatter.rb:41-46 | `p.name=v` on an empty tag Hash creates the nested Hash |
| JsonFormatterProps.StoreDottedNext | lib/json_tagged_logging/json_formatter.rb:44-46 | a second `p.name=v` appends `name` inside `p` |
| JsonFormatterProps.DigSets | lib/json_tagged_logging/json_formatter.rb:41-48 | when every level is missing or a Hash, `dig(*prefix)[last] = v` at any depth raises nothing, the path ends in `v`, the entries beside it keep their values, and no other top-level key changes; the middle levels are stated by `DigFrame`, a String at the last level by `DigIntoString` |
| JsonFormatterDig.DigFrame | lib/json_tagged_logging/json_formatter.rb:41-46 | the same `dig`, at every level of the path: a name other than the next one on the path holds what it held |
| JsonFormatterDig.DigIntoString | lib/json_tagged_logging/json_formatter.rb:46 | Hashes above and a String at the last level of the prefix: `[]=` replaces the first occurrence of `last` in it by `v` and leaves that String at the same place, or raises IndexError when `last` does not occur |
| JsonFormatterProps.DigThroughNonHash | lib/json_tagged_logging/json_formatter.rb:46 | a value other than a Hash met before the last level of the path, through Hashes only: `dig` raises TypeError |
| JsonFormatterProps.DeepStorePair | lib/json_tagged_logging/json_formatter.rb:44-46 | a key joined from two or more dot-free parts is split back into them and dug |
| JsonFormatterProps.StoreDeep | lib/json_tagged_logging/json_formatter.rb:44-48 | `a.b.c=v` and longer: the nested Hashes are created or entered, the path holds `v`, and the entries beside it and at the top keep their values; every middle level is stated by `StoreDeepFrame`, a String at the last level by `StoreDeepIntoString` |
| JsonFormatterDig.StoreDeepFrame | lib/json_tagged_logging/json_formatter.rb:44-46 | the same key: at every level of the path, a name other than the next one on it holds what it held |
| JsonFormatterDig.StoreDeepIntoString | lib/json_tagged_logging/json_formatter.rb:44-46 | the same key with Hashes above and a String at the last level: the first occurrence of the last part in that String is replaced by `v`, or IndexError when there is none |
| JsonFormatterProps.StoreDeepRaises | lib/json_tagged_logging/json_formatter.rb:44-46 | the same key with a String at a level above the last raises TypeError |
| JsonFormatterProps.StoreThreeLevels | lib/json_tagged_logging/json_formatter.rb:41-48 | `a.b.c=v` on an empty tag Hash gives `{a => {b => {c => v}}}` |
| JsonFormatterProps.StoreNested | lib/json_tagged_logging/json_formatter.rb:42-50 | three pairs under one prefix accumulate into one nested Hash |
| JsonFormatterProps.ExtractsNested | spec/json_tagged_logging_spec.rb:95-97 | `p.a=x p.b=y p.c=z` becomes `{p => {a => x, b => y, c => z}}` |
| JsonFormatterProps.DotAtEndRaises | lib/json_tagged_logging/json_formatter.rb:45-46 | a tag `name.=v` raises ArgumentError |
| JsonFormatterProps.StoreOverString | lib/json_tagged_logging/json_formatter.rb:46 | `k=s k.n=v` replaces the first `n` in `s`, or raises IndexError |
| JsonFormatterProps.DottedOverString | lib/json_tagged_logging/json_formatter.rb:46 | the same, as `hashify_tag` of the tag text |
| JsonFormatterProps.HoistSucceeds | lib/json_tagged_logging/json_formatter.rb:25-28 | the loop raises exactly when `hashify_tag` raises on some entry |
| JsonFormatterProps.HoistLive | lib/json_tagged_logging/json_formatter.rb:24-27 | `log[:tags]` stays the list being filtered unless a hoisted Hash carries `:tags` |
| JsonFormatterProps.HoistElsewhere | lib/json_tagged_logging/json_formatter.rb:27 | a key no hoisted Hash holds keeps its value |
| JsonFormatterProps.HoistKeepsOrder | lib/json_tagged_logging/json_formatter.rb:27 | keys already in the record keep their places, and hoisted keys come after |
| JsonFormatterProps.HoistStepMerges | lib/json_tagged_logging/json_formatter.rb:26-27 | a hoisted entry is deep-merged key by key and marked for deletion |
| JsonFormatterProps.HoistFreshHash | lib/json_tagged_logging/json_formatter.rb:27 | a Hash tag with only new keys is appended to the record |
| JsonFormatterProps.FilterMarks | lib/json_tagged_logging/json_formatter.rb:25 | filtering a list by the marks leaves its opaque entries |
| JsonFormatterProps.FilterFieldMarks | lib/json_tagged_logging/json_formatter.rb:25 | filtering a Hash by the marks of its keys leaves its opaque entries |
| JsonFormatterProps.SurvivorsOpaque | lib/json_tagged_logging/json_formatter.rb:25-28 | `delete_if` leaves exactly the opaque entries, in their order, so `Pruned` is the opaque part of the collection |
| JsonFormatterProps.DropOutcome | lib/json_tagged_logging/json_formatter.rb:29 | `tags` is removed exactly when the collection left is empty |
| JsonFormatterProps.DropElsewhere | lib/json_tagged_logging/json_formatter.rb:29 | dropping `tags` touches no other key |
| JsonFormatterProps.DropKeepsOrder | lib/json_tagged_logging/json_formatter.rb:29 | the keys before `tags` stay in place, and `tags`, if kept, stays after them |
| JsonFormatterProps.DropEmptiedFirst | lib/json_tagged_logging/json_formatter.rb:29 | a first `tags` entry that was emptied is dropped |
| JsonFormatterProps.TagsOutcome | lib/json_tagged_logging/json_formatter.rb:23-30 | without exceptions or `:tags` carriers, `tags` holds exactly the opaque entries in order, and is absent when none are left |
| JsonFormatterProps.StageElsewhere | lib/json_tagged_logging/json_formatter.rb:23-30 | hoisting changes only `tags` and the keys the hoisted Hashes hold |
| JsonFormatterProps.StageOrder | lib/json_tagged_logging/json_formatter.rb:14-30 | metadata keys come first, then `tags` while present, then hoisted keys |
| JsonFormatterProps.StagedMessage | lib/json_tagged_logging/json_formatter.rb:24-32 | what is merged from the message is all of it except a hoisted `:tags` collection |
| JsonFormatterProps.StageAllHoisted | lib/json_tagged_logging/json_formatter.rb:23-30 | when every tag is hoisted, the record is what they hoist and the message is the rest |
| JsonFormatterProps.MessageMergedLast | lib/json_tagged_logging/json_formatter.rb:32 | the message is deep-merged last: its leaves win, Hashes merge, one-sided keys survive, and new keys come after the metadata |
| JsonFormatterProps.NoHoisting | lib/json_tagged_logging/json_formatter.rb:23-32 | without a collection under `:tags`, the record is the metadata deep-merged with the whole message |
| JsonFormatterProps.ExampleRecord | spec/json_tagged_logging_spec.rb:100-125 | the whole record of the deep-merge test: tags hoisted in order, `tags` gone, and the message wins on every shared key at every depth |
| TaggedLogging.Wrap | lib/json_tagged_logging.rb:24-33 | with no tags the message passes unchanged; with tags the result is a Hash whose first key is `tags` |
| TaggedLogging.Prefix | spec/tagged_broadcast_logger_spec.rb:38-46 | a text tagger writes `[tag] ` per tag before the message: stated by `RespondText` and `TrioBlock` |
| TaggedLogging.Decorate | lib/json_tagged_logging.rb:24-33 | what a logger's formatter is handed, by mode: stated by `WrapPlain`, `WrapHash` and `RespondText` |
| TaggedLogging.Line | lib/json_tagged_logging.rb:32 | the base formatter applied to the decorated message: stated by `TaggedPlainRecord`, `BlockScopesTags` and `RespondText` |
| TaggedLogging.Handed | lib/json_tagged_logging.rb:24-33 | what one `call` leaves of the caller's message: stated by `HandedDirect` and `HandedFields` |
| TaggedLogging.Play | lib/json_tagged_logging.rb:45-47 | the reference meaning of a script: stated by `PlayCount`, `PlaySingle`, `PlayAppend` and `NestedScopes` |
| TaggedLogging.Step | lib/json_tagged_logging.rb:45-47 | one step of a script: stated by `StepCount` |
| TaggedLogging.TagFormatter.PushTags | lib/json_tagged_logging.rb:46-47 | the pushed tags go on top of the stack, in order |
| TaggedLogging.TagFormatter.PopTags | lib/json_tagged_logging.rb:46-47 | the last `count` tags are removed |
| TaggedLogging.Logger.Add | lib/json_tagged_logging.rb:24-33 | the line the formatter returns goes to the device, or its exception comes back and nothing is written; with a line, what the formatter left of the caller's message is `Handed`, promised only when a line comes back |
| TaggedLogging.Logger.Run | lib/json_tagged_logging.rb:45-47 | a script writes what `Play` says, stops at the first exception, and leaves the tag stack as it found it |
| TaggedLogging.Logger.Perform | lib/json_tagged_logging.rb:45-47 | one step of a script writes what `Step` says: a log call's line, or a nested block's lines with its tags pushed; the stack is left as it was |
| TaggedLogging.Logger.Tagged | lib/json_tagged_logging.rb:45-47 | the block runs with the tags pushed, and the stack is restored on every exit |
| TaggedLogging.Logger.Derive | lib/json_tagged_logging.rb:48-53 | a new logger on the same device, with a new formatter whose stack is the old stack plus the tags; the original is unchanged |
| TaggedLogging.New | lib/json_tagged_logging.rb:36-43 | the clone writes to the same device; it gets a default `JSONFormatter` only when it had none; its formatter is new, JSON-tagging, with no tags |
| TaggedLoggingProps.WrapPlain | lib/json_tagged_logging.rb:25-29 | with tags, a plain message becomes `{tags: [...], message: msg}` |
| TaggedLoggingProps.WrapHash | lib/json_tagged_logging.rb:26-28 | with tags, a Hash message is shallow-merged over `{tags: [...]}`, and its keys, its own `tags` included, win |
| TaggedLoggingProps.OpaqueAll | lib/json_tagged_logging/json_formatter.rb:25-28 | plain tags all survive the filtering |
| TaggedLoggingProps.PlainTags | lib/json_tagged_logging/json_formatter.rb:39-54 | plain tags neither raise, nor are hoisted, nor carry `:tags` |
| TaggedLoggingProps.PlainStageTags | lib/json_tagged_logging/json_formatter.rb:23-30 | staging a wrapped plain message keeps the tags as they are |
| TaggedLoggingProps.PlainStageLog | lib/json_tagged_logging/json_formatter.rb:23-30 | and keeps the metadata in order, with `tags` after it |
| TaggedLoggingProps.PlainStageMessage | lib/json_tagged_logging/json_formatter.rb:24 | and leaves the rest of the Hash as the message part |
| TaggedLoggingProps.TaggedPlainRecord | lib/json_tagged_logging.rb:24-33 | through `JSONFormatter`, a tagged plain message gives the metadata, then `tags` in push order, then `message` |
| TaggedLoggingProps.HandedDirect | lib/json_tagged_logging/json_formatter.rb:23-24 | a formatter given the message itself leaves it unchanged unless it is a Hash with a collection under `:tags`, and then removes that key |
| TaggedLoggingProps.HandedFields | lib/json_tagged_logging/json_formatter.rb:23-28 | after `call`, every other key of the caller's Hash keeps its value; `:tags` is gone when the Hash was given directly, pruned in place when it reached the formatter through `merge!`, and untouched otherwise |
| TaggedLoggingProps.PlayCount | lib/json_tagged_logging.rb:45-47 | a script that raises nothing writes one line per log call, nested ones included |
| TaggedLoggingProps.StepCount | lib/json_tagged_logging.rb:45-47 | likewise for one step |
| TaggedLoggingProps.PlaySingle | lib/json_tagged_logging.rb:45-47 | a one-step script does what the step does |
| TaggedLoggingProps.PlayAppend | lib/json_tagged_logging.rb:45-47 | two scripts in a row: the second runs only if the first raised nothing, and its lines follow |
| TaggedLoggingProps.NestedScopes | lib/json_tagged_logging.rb:45-47 | `tagged(a) { tagged(b) { ... } }` does what `tagged(a, b) { ... }` does |
| TaggedLoggingProps.BlockScopesTags | spec/json_tagged_logging_spec.rb:129-138 | inside the block the line carries the tag; after it, the line does not |
| TaggedLoggingProps.DerivedTagsWrap | spec/json_tagged_logging_spec.rb:140-148 | `tagged('foo').tagged('bar')` wraps the message with both tags in order |
| TaggedBroadcast.Push | lib/json_tagged_logging/tagged_broadcast_logger.rb:14-16 | each capable logger takes the tags on top of its own, an incapable one is as it was, and the length and order are kept |
| TaggedBroadcast.Pushed | lib/json_tagged_logging/tagged_broadcast_logger.rb:6-7 | one capable logger with the tags pushed: stated by `Push` and `PushedAlone` |
| TaggedBroadcast.Respond | lib/json_tagged_logging/tagged_broadcast_logger.rb:2 | one logger's answer to a log call: stated by `RespondText`, `DeliverClean` and `DeliverStops` |
| TaggedBroadcast.Dispatch | lib/json_tagged_logging/tagged_broadcast_logger.rb:2 | a broadcast log call gives one list of lines per logger, from `Outcomes`: each logger formats what the formatters before it left of the one message object |
| TaggedBroadcast.Outcomes | lib/json_tagged_logging/tagged_broadcast_logger.rb:2 | one answer per logger, each formatting what the formatters before it left of the message |
| TaggedBroadcast.Threads | lib/json_tagged_logging/tagged_broadcast_logger.rb:2 | the answers of a log call are `Threaded` through the messages it hands on, the first being the caller's |
| TaggedBroadcast.Deliver | lib/json_tagged_logging/tagged_broadcast_logger.rb:2 | the turns stop at the first exception: stated by `DeliverCons`, `DeliverClean` and `DeliverStops` |
| TaggedBroadcast.DeliverCons | lib/json_tagged_logging/tagged_broadcast_logger.rb:2 | the first answer either raises, and no logger writes, or writes one line before the rest take their turns |
| TaggedBroadcast.DispatchCopies | lib/json_tagged_logging/tagged_broadcast_logger.rb:2 | the corrected dispatch in which every logger formats the caller's message as given; one list of lines per logger |
| TaggedBroadcast.PlayAll | lib/json_tagged_logging/tagged_broadcast_logger.rb:3-12 | the reference meaning of a script for a broadcast: stated by `PlayAllApart` and `ScopeAsPush` |
| TaggedBroadcast.StepAll | lib/json_tagged_logging/tagged_broadcast_logger.rb:3-12 | one step of a script for a broadcast: stated by `StepAllApart` |
| TaggedBroadcast.Retag | lib/json_tagged_logging/tagged_broadcast_logger.rb:15 | a capable logger is replaced by a fresh derived one on the same device, and an incapable one is kept as the same object |
| TaggedBroadcast.RetagAll | lib/json_tagged_logging/tagged_broadcast_logger.rb:14-16 | the `map` keeps length, order and devices, replaces capable loggers by fresh derived ones, keeps incapable ones identical, and keeps formatters distinct |
| TaggedBroadcast.Assemble | lib/json_tagged_logging/tagged_broadcast_logger.rb:17-20 | a new broadcast logger holding exactly the given loggers and formatter |
| TaggedBroadcast.TaggedBroadcastLogger.constructor | lib/json_tagged_logging/tagged_broadcast_logger.rb:17 | a broadcast logger over the given loggers, with no formatter |
| TaggedBroadcast.TaggedBroadcastLogger.BroadcastTo | lib/json_tagged_logging/tagged_broadcast_logger.rb:19 | the loggers are appended, and the formatter is unchanged |
| TaggedBroadcast.TaggedBroadcastLogger.Add | lib/json_tagged_logging/tagged_broadcast_logger.rb:2 | a log call writes to every device what `Dispatch` says, the message handed from logger to logger as each formatter leaves it, and returns the first exception |
| TaggedBroadcast.TaggedBroadcastLogger.Cast | lib/json_tagged_logging/tagged_broadcast_logger.rb:2 | loggers `i` onward take their turns as `Deliver` over the outcomes from `i` on says, given the message as it reaches logger `i` (`Threaded`); earlier devices are untouched |
| TaggedBroadcast.TaggedBroadcastLogger.Turn | lib/json_tagged_logging/tagged_broadcast_logger.rb:2 | one logger's turn writes its formatter's line or returns its exception, and hands on what that formatter left of the message, which is the next logger's message in `Threaded` |
| TaggedBroadcast.TaggedBroadcastLogger.Run | lib/json_tagged_logging/tagged_broadcast_logger.rb:5 | the block, run through the broadcast logger, writes what `PlayAll` says, each log call's message handed from logger to logger, and leaves every formatter's tags as they were |
| TaggedBroadcast.TaggedBroadcastLogger.Tagged | lib/json_tagged_logging/tagged_broadcast_logger.rb:3-12 | the block form returns the broadcast logger itself, or the exception, after writing what `PlayAll` with the tags pushed on the capable loggers says, each log call's message handed from logger to logger; every stack is restored |
| TaggedBroadcast.TaggedBroadcastLogger.Nest | lib/json_tagged_logging/tagged_broadcast_logger.rb:5-11 | the procedure the fold built after `n` loggers runs the block with the tags pushed on the capable loggers among the first `n` |
| TaggedBroadcast.TaggedBroadcastLogger.Layer | lib/json_tagged_logging/tagged_broadcast_logger.rb:6-7 | a capable logger's `tagged` with the inner procedure as block adds its own tags and restores them |
| TaggedBroadcast.TaggedBroadcastLogger.PushOn | lib/json_tagged_logging/tagged_broadcast_logger.rb:7 | entering `logger.tagged(*tags)` pushes the tags on that one logger's formatter only; every device is unchanged |
| TaggedBroadcast.TaggedBroadcastLogger.PopOn | lib/json_tagged_logging/tagged_broadcast_logger.rb:7 | leaving `logger.tagged` puts that one logger's formatter back to the tags it had before; every device is unchanged |
| TaggedBroadcast.TaggedBroadcastLogger.Derive | lib/json_tagged_logging/tagged_broadcast_logger.rb:13-21 | a new broadcast logger over the same devices, whose loggers format with the pushed tags, whose incapable loggers are the same objects, and whose formatter is the first logger's or none |
| TaggedBroadcastProps.DeliverClean | lib/json_tagged_logging/tagged_broadcast_logger.rb:2 | a log call raises nothing exactly when every formatter returns a line, and then each device gets its own line |
| TaggedBroadcastProps.DeliverStops | lib/json_tagged_logging/tagged_broadcast_logger.rb:2 | the first formatter that raises ends the call: loggers before it have written, loggers from it on have not |
| TaggedBroadcastProps.PushedAlone | lib/json_tagged_logging/tagged_broadcast_logger.rb:6-9 | a logger the tags reached runs the block as its own `tagged` block would |
| TaggedBroadcastProps.PlayAllApart | lib/json_tagged_logging/tagged_broadcast_logger.rb:3-12 | for a script whose messages no formatter changes (`InertScript`), the broadcast raises exactly when one logger on its own would, and otherwise each device gets what its logger writes alone |
| TaggedBroadcastProps.StepAllApart | lib/json_tagged_logging/tagged_broadcast_logger.rb:3-12 | the same for one step whose messages no formatter changes |
| TaggedBroadcastProps.OutcomesInert | lib/json_tagged_logging/tagged_broadcast_logger.rb:2 | a message no formatter changes reaches every logger as given |
| TaggedBroadcastProps.CopiesInert | lib/json_tagged_logging/tagged_broadcast_logger.rb:2 | for such a message, the threaded answers are the answers to the message itself |
| TaggedBroadcastProps.DispatchInert | lib/json_tagged_logging/tagged_broadcast_logger.rb:2 | for such a message, the dispatch is the corrected one |
| TaggedBroadcastProps.CopiesApart | lib/json_tagged_logging/tagged_broadcast_logger.rb:2 | in the corrected dispatch, a log call raises exactly when one logger alone would, and otherwise each device gets its own logger's line |
| TaggedBroadcastProps.SharedOutcomes | lib/json_tagged_logging/tagged_broadcast_logger.rb:2 | with two JSON-tagged loggers, the second formats what the first left of the message |
| TaggedBroadcastProps.SharedMessageInterferes | lib/json_tagged_logging/json_formatter.rb:24-25 | `info({tags: [{a: "b"}], m: "x"})` through two JSON-tagged loggers: the first record holds `a`, and the second, given the pruned message, does not |
| TaggedBroadcastProps.ScopeAsPush | lib/json_tagged_logging/tagged_broadcast_logger.rb:3-21 | the block form writes what the derived broadcast logger writes |
| TaggedBroadcastProps.RespondText | spec/tagged_broadcast_logger_spec.rb:6-10 | a text formatter writes a String as itself, after `[tag] ` prefixes when tagged |
| TaggedBroadcastProps.TrioHello | spec/tagged_broadcast_logger_spec.rb:20-26 | `info('hello')` writes `hello` to all three devices |
| TaggedBroadcastProps.TrioBlock | spec/tagged_broadcast_logger_spec.rb:38-46 | inside `tagged('foo', 'bar')`, the capable loggers write `[foo] [bar] hello` and the plain logger writes `hello` |
| TaggedBroadcastProps.TrioDerived | spec/tagged_broadcast_logger_spec.rb:57-64 | the derived broadcast logger writes the same |

## Left out

- TaggedLogging.Decorate: under a text tag prefix, a message that is not a String is embedded as its JSON text (`Text`), where Ruby interpolates its `to_s`.
- Values.Key: Hash keys are Symbols or Strings only. Integer, nil and other keys cannot be written, and a Symbol and a String with the same text are different keys, as in Ruby.
- JsonFormatter.Formatter.Call: when `hashify_tag` raises part-way through `delete_if`, what is left of the caller's collection is not stated; `pruned` is promised only when a line comes back.
- JsonFormatter.Formatter.Build: the same gap; `pruned` is promised only when a record comes back, since `delete_if` may have removed some entries before `hashify_tag` raised.
- JsonFormatter.Formatter.StageMessage: the same gap; the filtered collection is promised only when hoisting raises nothing.
- TaggedLogging.Logger.Add: what is left of the caller's message (`rest`) is promised only when a line comes back; after an exception it is not stated.
- A Hash the caller reuses across separate log calls is not modelled: each log call starts from the value passed in, so what one call removes from it does not carry over to the next.
- TaggedBroadcastProps.PlayAllApart: holds only for scripts whose messages no formatter changes (`InertScript`). A Hash message with a collection under `:tags` is changed by the first JSON formatter that sees it, so later loggers format less (see Findings).
- TaggedBroadcastProps.StepAllApart: holds only for steps whose messages no formatter changes (`InertStep`), for the same reason.
- Values.Render: states only that the JSON text is a single line. The exact escaping and the UTF-8 encoding of `to_json` are not specified, and numbers, floats, `true`, `false` and `nil` are opaque literal atoms.
- The text formatter (`TextBase`) stands in for three formatters: the tests' `TestFormatter` and the `proc` formatter, and ActiveSupport's `SimpleFormatter`. It writes a String as itself and anything else as its JSON text. Ruby would raise for a non-String in `msg + "\n"`, and would use `to_s` or `inspect` in `SimpleFormatter`. Other custom formatters are not modelled.
- ActiveSupport's `TaggedLogging` internals:
  - `push_tags` flattening nested arrays and dropping blank tags;
  - tag storage per thread or fiber (`LocalTagStorage`); the stack is a field of the formatter object;
  - the `[tag] ` prefix for non-String tags, which uses the JSON text instead of `to_s`.
- ActiveSupport's `BroadcastLogger` beyond log calls and `broadcast_to`:
  - level filtering and the other delegated methods;
  - the forwarding of `formatter=` to the loggers, which in the non-block form runs before `broadcast_to` and so reaches none;
  - its dispatch loop, which is modelled as recursion over the logger index (`Cast`), with
    the message threaded from turn to turn as ghost lists (`Threaded`).
- Logger level filtering, severity labels, progname defaults and timestamps: severity, time and progname are opaque values handed through unchanged.
- The output device (`StringIO`, an IO) is a list of written lines. Writes never fail.
- A `tagged` block is a script of log calls and nested `tagged` blocks. Other Ruby code in a block is not modelled:
  - raising on its own;
  - `break` or `return` out of the block;
  - calling `broadcast_to`;
  - replacing formatters.

  The block's return value is not modelled.
- The loggers of a broadcast logger write to pairwise different devices through pairwise different formatter objects (`Valid`). Broadcasts whose loggers share a device or a formatter are not modelled.
- Ruby metaprogramming is reduced to a mode of the formatter (`Untagged`, `TextTags`, `JsonTags`):
  - `clone` and `extend`;
  - `respond_to?(:tagged)`;
  - the `alias` patch in `activesupport_patch.rb`, which routes a formatter extended with `JSONTaggedLogging::Formatter` to its `call`.
- `lib/json_tagged_logging/railtie.rb` (Rails boot wiring and the backtrace silencer) is not part of this model.
- `JSONFormatter.new` ignores unknown options (`**options`). Its other options are the four parameters of `Init`.

## Findings

| source | as written | input that shows it | evidently intended | confidence | as-written member | corrected member |
|---|---|---|---|---|---|---|
| lib/json_tagged_logging/json_formatter.rb:24-25 | `call` deletes `:tags` from the Hash it is given and prunes that collection in place; through `merge!` (lib/json_tagged_logging.rb:28) the collection is the caller's, and a broadcast logger hands the same message object to every logger, so a later logger formats what an earlier one left | `info({tags: [{a: "b"}], m: "x"})` on a `TaggedBroadcastLogger` over two `JSONTaggedLogging` loggers with `JSONFormatter.new(level: false)` and no tags pushed: the first formatter deletes `:tags` from the caller's Hash, so the first line holds `"a":"b"` and the second does not | every logger formats the caller's message as given | not executed | TaggedBroadcastProps.SharedMessageInterferes | TaggedBroadcastProps.CopiesApart |
