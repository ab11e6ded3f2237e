/**
 * JSONFormatter: turns one log call into one JSON line. The record is built in a
 * fixed order: the enabled metadata fields, then the entries of `msg[:tags]` that are
 * Hashes or extractable `key=value` strings (merged in and removed from the list),
 * the remaining tags under `tags`, and finally the message, merged last.
 */
module JsonFormatter {
  import opened Wrappers
  import opened Values
  import opened TagSyntax

  const LevelKey: Key := SymKey("level")
  const TimestampKey: Key := SymKey("timestamp")
  const PrognameKey: Key := SymKey("progname")
  const TagsKey: Key := SymKey("tags")
  const MessageKey: Key := SymKey("message")

  // ---------------------------------------------------------------------------
  // Configuration

  /** Which metadata fields a formatter writes. */
  datatype Config = Config(severity: bool, timestamp: bool, progname: bool)

  /**
   * The options of `JSONFormatter.new`: `severity` defaults to `level` (an omitted
   * `severity` is `None`), and the level is written when either is set.
   */
  function Init(level: bool, severity: Option<bool>, timestamp: bool, progname: bool): (c: Config)
    ensures c.severity <==> level || severity == Some(true)
    ensures c.timestamp == timestamp && c.progname == progname
  {
    var given := if severity.Some? then severity.value else level;
    Config(given || level, timestamp, progname)
  }

  // ---------------------------------------------------------------------------
  // `String#[]=` with a String index

  predicate OccursAt(s: string, pat: string, i: nat) {
    i + |pat| <= |s| && s[i..i + |pat|] == pat
  }

  /** The first position at or after `from` where `pat` occurs in `s`. */
  function FindFrom(s: string, pat: string, from: nat): (r: Option<nat>)
    ensures r.Some? ==> from <= r.value && OccursAt(s, pat, r.value)
    ensures r.Some? ==> forall j :: from <= j < r.value ==> !OccursAt(s, pat, j)
    ensures r.None? ==> forall j :: from <= j ==> !OccursAt(s, pat, j)
    decreases |s| + 1 - from
  {
    if from + |pat| > |s| then None
    else if OccursAt(s, pat, from) then Some(from)
    else FindFrom(s, pat, from + 1)
  }

  /** `s[pat] = rep`: the first occurrence of `pat` replaced by `rep`; `None` where Ruby raises IndexError. */
  function ReplaceFirst(s: string, pat: string, rep: string): (r: Option<string>)
    ensures r.None? <==> forall j :: !OccursAt(s, pat, j)
  {
    match FindFrom(s, pat, 0)
    case None => None
    case Some(i) => Some(s[..i] + rep + s[i + |pat|..])
  }

  // ---------------------------------------------------------------------------
  // `hashify_tag`

  /**
   * `tag_hash.dig(*prefix)[last] = v` on the auto-vivifying `tag_hash`: a key missing on
   * the way gets a new empty Hash. Digging on through a String raises TypeError; a
   * String reached at the end gets the first occurrence of `last` replaced by `v`, or
   * raises IndexError when `last` does not occur in it.
   */
  function Dig(h: seq<Field>, prefix: seq<string>, last: string, v: string): Result<seq<Field>, RubyError>
    requires |prefix| > 0
    decreases |prefix|
  {
    var key := StrKey(prefix[0]);
    var found := Get(h, key);
    if found.None? || found.value.Hash? then
      var inner := if found.None? then [] else found.value.fields;
      var inner' :- if |prefix| == 1 then Ok(Put(inner, StrKey(last), Str(v))) else Dig(inner, prefix[1..], last, v);
      Ok(Put(h, key, Hash(inner')))
    else if found.value.Str? && |prefix| == 1 then
      var replaced := ReplaceFirst(found.value.s, last, v);
      if replaced.None? then Err(IndexError) else Ok(Put(h, key, Str(replaced.value)))
    else
      // a String with more keys to dig (a tag hash holds nothing but Strings and Hashes)
      Err(TypeError)
  }

  /** `h.dig(*path)` without creating anything: the value at a path of String keys through nested Hashes, if any. */
  function At(h: seq<Field>, path: seq<string>): Option<Value>
    requires |path| > 0
    decreases |path|
  {
    var found := Get(h, StrKey(path[0]));
    if |path| == 1 || found.None? then found
    else if found.value.Hash? then At(found.value.fields, path[1..])
    else None
  }

  /** Every level of `prefix` is missing or a Hash, so `dig` gets to the bottom, creating the missing ones. */
  predicate Diggable(h: seq<Field>, prefix: seq<string>)
    requires |prefix| > 0
    decreases |prefix|
  {
    var found := Get(h, StrKey(prefix[0]));
    && (found.None? || found.value.Hash?)
    && (|prefix| > 1 ==> Diggable(if found.None? then [] else found.value.fields, prefix[1..]))
  }

  /** One turn of the `scan(...).each` loop: a dotted key is split and dug, a plain key stored. */
  function StorePair(h: seq<Field>, p: Pair): Result<seq<Field>, RubyError>
  {
    if '.' in p.key then
      var path := SplitDots(p.key);
      if |path| < 2 then Err(ArgumentError)  // `dig` called with no keys
      else Dig(h, path[..|path| - 1], path[|path| - 1], p.value)
    else Ok(Put(h, StrKey(p.key), Str(p.value)))
  }

  /** The rest of the loop from `h` on, stopping at the first exception. */
  function StorePairs(h: seq<Field>, ps: seq<Pair>): Result<seq<Field>, RubyError>
    decreases |ps|
  {
    if ps == [] then Ok(h)
    else
      var h' :- StorePair(h, ps[0]);
      StorePairs(h', ps[1..])
  }

  /**
   * `hashify_tag(tag)`: a String the anchored grammar accepts becomes a Hash of its
   * pairs; anything else comes back unchanged. On such a String, `scan` finds exactly
   * the pairs ScanPairs reads from the start, as at most a newline follows them.
   */
  function Hashify(tag: Value): Result<Value, RubyError>
  {
    if tag.Str? && Extractable(tag.s) then
      var h :- StorePairs([], ScanPairs(tag.s).0);
      Ok(Hash(h))
    else Ok(tag)
  }

  // ---------------------------------------------------------------------------
  // Hoisting tags out of `msg[:tags]`

  /** Whether `delete_if` can walk the value: an Array, or a Hash (whose block sees each key). */
  predicate Filterable(v: Value) {
    v.Arr? || v.Hash?
  }

  function KeyAsValue(k: Key): Value {
    match k
    case SymKey(n) => Sym(n)
    case StrKey(n) => Str(n)
  }

  function KeyValues(fs: seq<Field>): (r: seq<Value>)
    ensures |r| == |fs|
  {
    if fs == [] then [] else [KeyAsValue(fs[0].key)] + KeyValues(fs[1..])
  }

  /** What `delete_if` hands its block, one per entry. */
  function Probes(tags: Value): seq<Value>
    requires Filterable(tags)
  {
    if tags.Arr? then tags.items else KeyValues(tags.fields)
  }

  function Filter<T>(xs: seq<T>, keep: seq<bool>): (r: seq<T>)
    requires |xs| == |keep|
    ensures |r| <= |xs|
    ensures forall x :: x in r ==> x in xs
  {
    if xs == [] then []
    else (if keep[0] then [xs[0]] else []) + Filter(xs[1..], keep[1..])
  }

  /** The collection after `delete_if`, keeping the entries marked in `keep`. */
  function Survivors(tags: Value, keep: seq<bool>): Value
    requires Filterable(tags) && |keep| == |Probes(tags)|
  {
    if tags.Arr? then Arr(Filter(tags.items, keep)) else Hash(Filter(tags.fields, keep))
  }

  /** For each entry, whether `delete_if` keeps it. */
  function Marks(tags: seq<Value>): (m: seq<bool>)
    ensures |m| == |tags|
  {
    if tags == [] then [] else [!Hoisted(tags[0])] + Marks(tags[1..])
  }

  /** `msg[:tags]&.respond_to?(:delete_if)`: the Hash message holds a collection under `:tags`. */
  predicate TakesTags(msg: seq<Field>) {
    var tags := Get(msg, TagsKey);
    tags.Some? && Filterable(tags.value)
  }

  /**
   * The message `call` leaves to its caller: `msg.delete(:tags)` takes a collection
   * under `:tags` out of a Hash message before anything can raise.
   */
  function Remains(msg: Value): Value {
    if msg.Hash? && TakesTags(msg.fields) then Hash(Delete(msg.fields, TagsKey)) else msg
  }

  /** The collection once `delete_if` has removed, in place, every entry it hoisted. */
  function Pruned(tags: Value): Value
    requires Filterable(tags)
  {
    Survivors(tags, Marks(Probes(tags)))
  }

  /**
   * The state of the `delete_if` loop: the record so far, whether each entry seen is
   * kept, and whether `log[:tags]` is still the collection being filtered (a hoisted
   * Hash with a `:tags` key replaces it).
   */
  datatype Hoisting = Hoisting(log: seq<Field>, keep: seq<bool>, live: bool)

  /** Whether `hashify_tag` makes a Hash of the tag, so that it is merged and deleted. */
  predicate Hoisted(tag: Value) {
    Hashify(tag).Ok? && Hashify(tag).value.Hash?
  }

  /** One turn of the `delete_if` block. */
  function HoistStep(st: Hoisting, tag: Value): Result<Hoisting, RubyError>
  {
    var t :- Hashify(tag);
    if t.Hash? then
      Ok(Hoisting(DeepMerge(st.log, t.fields), st.keep + [false], st.live && TagsKey !in Keys(t.fields)))
    else
      Ok(Hoisting(st.log, st.keep + [true], st.live))
  }

  /** The rest of the `delete_if` loop from `st` on, stopping at the first exception. */
  function Hoist(st: Hoisting, tags: seq<Value>): (r: Result<Hoisting, RubyError>)
    ensures r.Ok? ==> |r.value.keep| == |st.keep| + |tags|
    decreases |tags|
  {
    if tags == [] then Ok(st)
    else
      var st' :- HoistStep(st, tags[0]);
      Hoist(st', tags[1..])
  }

  /** Every entry is marked for deletion exactly when it is hoisted. */
  lemma {:induction false} HoistMarks(st: Hoisting, tags: seq<Value>)
    requires Hoist(st, tags).Ok?
    ensures Hoist(st, tags).value.keep == st.keep + Marks(tags)
    decreases |tags|
  {
    if tags != [] {
      var next := HoistNext(st, tags);
      HoistMarks(next, tags[1..]);
      MarksAssoc(st.keep, !Hoisted(tags[0]), Marks(tags[1..]));
    }
  }

  /** The first turn of a loop that ends without an exception, and the turns after it. */
  lemma HoistNext(st: Hoisting, tags: seq<Value>) returns (next: Hoisting)
    requires tags != [] && Hoist(st, tags).Ok?
    ensures HoistStep(st, tags[0]) == Ok(next) && Hoist(st, tags) == Hoist(next, tags[1..])
    ensures next.keep == st.keep + [!Hoisted(tags[0])]
  {
    next := HoistStep(st, tags[0]).value;
  }

  lemma MarksAssoc(keep: seq<bool>, m: bool, rest: seq<bool>)
    ensures (keep + [m]) + rest == keep + ([m] + rest)
  {
  }

  /** `log[:tags].empty?`: NoMethodError for the values without `empty?`. */
  function IsEmpty(v: Value): Result<bool, RubyError> {
    match v
    case Str(s) => Ok(s == [])
    case Sym(n) => Ok(n == [])
    case Arr(items) => Ok(items == [])
    case Hash(fs) => Ok(fs == [])
    case Atom(_) => Err(NoMethodError)
  }

  /** `log.delete(:tags) if log[:tags].empty?`. */
  function DropEmptyTags(log: seq<Field>): Result<seq<Field>, RubyError> {
    var tags := Get(log, TagsKey);
    if tags.None? then Err(NoMethodError)  // `nil.empty?`
    else
      var empty :- IsEmpty(tags.value);
      Ok(if empty then Delete(log, TagsKey) else log)
  }

  // ---------------------------------------------------------------------------
  // `call`

  /** `log[:level]`, `log[:timestamp]`, `log[:progname]`, each only when enabled. */
  function Meta(c: Config, severity: Value, time: Value, progname: Value): seq<Field>
  {
    var log0: seq<Field> := [];
    var log1 := if c.severity then Put(log0, LevelKey, severity) else log0;
    var log2 := if c.timestamp then Put(log1, TimestampKey, time) else log1;
    if c.progname then Put(log2, PrognameKey, progname) else log2
  }

  /** The record just before the message is merged, and what is merged from the message. */
  datatype Staged = Staged(log: seq<Field>, message: seq<Field>)

  /** A Hash message on top of the metadata `meta`: the hoisting of `msg[:tags]` when it is a collection. */
  function Stage(meta: seq<Field>, msg: seq<Field>): Result<Staged, RubyError>
  {
    var tags := Get(msg, TagsKey);
    if tags.Some? && Filterable(tags.value) then
      var st :- Hoist(Hoisting(Put(meta, TagsKey, tags.value), [], true), Probes(tags.value));
      var log := if st.live then Put(st.log, TagsKey, Survivors(tags.value, st.keep)) else st.log;
      var log' :- DropEmptyTags(log);
      Ok(Staged(log', Delete(msg, TagsKey)))
    else
      Ok(Staged(meta, msg))
  }

  /** The Hash `call` serialises. */
  function Record(c: Config, severity: Value, time: Value, progname: Value, msg: Value): Result<seq<Field>, RubyError>
  {
    if msg.Hash? then
      var s :- Stage(Meta(c, severity, time, progname), msg.fields);
      Ok(DeepMerge(s.log, s.message))
    else
      Ok(Put(Meta(c, severity, time, progname), MessageKey, msg))
  }

  /** `call(severity, timestamp, progname, msg)`: the record as exactly one line of JSON. */
  function Format(c: Config, severity: Value, time: Value, progname: Value, msg: Value): (r: Result<string, RubyError>)
    ensures r.Ok? <==> Record(c, severity, time, progname, msg).Ok?
    ensures r.Ok? ==> |r.value| > 0 && r.value[|r.value| - 1] == '\n' && '\n' !in r.value[..|r.value| - 1]
  {
    var log :- Record(c, severity, time, progname, msg);
    var line := Render(Hash(log)) + "\n";
    assert line[..|line| - 1] == Render(Hash(log));
    Ok(line)
  }

  // ---------------------------------------------------------------------------
  // The formatter object

  class Formatter {
    const config: Config

    constructor(level: bool := true, severity: Option<bool> := None, timestamp: bool := false, progname: bool := false)
      ensures config == Init(level, severity, timestamp, progname)
    {
      config := Init(level, severity, timestamp, progname);
    }

    method HashifyTag(tag: Value) returns (r: Result<Value, RubyError>)
      ensures r == Hashify(tag)
    {
      if !(tag.Str? && Extractable(tag.s)) {
        return Ok(tag);
      }
      var pairs := ScanPairs(tag.s).0;
      var h: seq<Field> := [];
      var i := 0;
      while i < |pairs|
        invariant 0 <= i <= |pairs|
        invariant StorePairs(h, pairs[i..]) == StorePairs([], pairs)
      {
        assert pairs[i..][1..] == pairs[i + 1..];
        var step := StorePair(h, pairs[i]);
        if step.Err? {
          return Err(step.error);
        }
        h := step.value;
        i := i + 1;
      }
      return Ok(Hash(h));
    }

    /** The `delete_if` loop over the entries of `msg[:tags]`, with `log` the record it starts from. */
    method HoistTags(log: seq<Field>, probes: seq<Value>) returns (r: Result<Hoisting, RubyError>)
      ensures r == Hoist(Hoisting(log, [], true), probes)
    {
      var st := Hoisting(log, [], true);
      var i := 0;
      while i < |probes|
        invariant 0 <= i <= |probes|
        invariant Hoist(st, probes[i..]) == Hoist(Hoisting(log, [], true), probes)
      {
        assert probes[i..][1..] == probes[i + 1..];
        var t := HashifyTag(probes[i]);
        if t.Err? {
          return Err(t.error);
        }
        if t.value.Hash? {
          st := Hoisting(DeepMerge(st.log, t.value.fields), st.keep + [false], st.live && TagsKey !in Keys(t.value.fields));
        } else {
          st := st.(keep := st.keep + [true]);
        }
        i := i + 1;
      }
      return Ok(st);
    }

    /**
     * The Hash branch of `call`, up to the final merge of the message; `pruned` is
     * the collection under `msg[:tags]` once `delete_if` is done with it.
     */
    method StageMessage(meta: seq<Field>, msg: seq<Field>) returns (r: Result<Staged, RubyError>, pruned: Option<Value>)
      ensures r == Stage(meta, msg)
      ensures r.Ok? ==> pruned == if TakesTags(msg) then Some(Pruned(Get(msg, TagsKey).value)) else None
    {
      pruned := None;
      var tags := Get(msg, TagsKey);
      if !(tags.Some? && Filterable(tags.value)) {
        return Ok(Staged(meta, msg)), pruned;
      }
      var start := Put(meta, TagsKey, tags.value);
      var st := HoistTags(start, Probes(tags.value));
      if st.Err? {
        return Err(st.error), pruned;
      }
      HoistMarks(Hoisting(start, [], true), Probes(tags.value));
      assert [] + Marks(Probes(tags.value)) == Marks(Probes(tags.value));
      pruned := Some(Survivors(tags.value, st.value.keep));
      var log := st.value.log;
      if st.value.live {
        log := Put(log, TagsKey, Survivors(tags.value, st.value.keep));
      }
      var current := Get(log, TagsKey);
      if current.None? {
        return Err(NoMethodError), pruned;
      }
      var empty := IsEmpty(current.value);
      if empty.Err? {
        return Err(empty.error), pruned;
      }
      if empty.value {
        log := Delete(log, TagsKey);
      }
      return Ok(Staged(log, Delete(msg, TagsKey))), pruned;
    }

    /** The metadata fields this formatter is configured to write. */
    method MetaLog(severity: Value, time: Value, progname: Value) returns (log: seq<Field>)
      ensures log == Meta(config, severity, time, progname)
    {
      log := [];
      if config.severity {
        log := Put(log, LevelKey, severity);
      }
      if config.timestamp {
        log := Put(log, TimestampKey, time);
      }
      if config.progname {
        log := Put(log, PrognameKey, progname);
      }
    }

    /**
     * `call(severity, timestamp, progname, msg)`. The caller's Hash is changed in
     * place: `rest` is what is left of `msg`, and `pruned` what is left of the
     * collection that was under its `:tags`.
     */
    method Call(severity: Value, time: Value, progname: Value, msg: Value)
      returns (r: Result<string, RubyError>, rest: Value, pruned: Option<Value>)
      ensures r == Format(config, severity, time, progname, msg)
      ensures rest == Remains(msg)
      ensures r.Ok? ==> pruned == if msg.Hash? && TakesTags(msg.fields) then Some(Pruned(Get(msg.fields, TagsKey).value)) else None
    {
      rest := msg;
      if msg.Hash? && TakesTags(msg.fields) {
        rest := Hash(Delete(msg.fields, TagsKey));
      }
      var log;
      log, pruned := Build(severity, time, progname, msg);
      if log.Err? {
        return Err(log.error), rest, pruned;
      }
      return Ok(Render(Hash(log.value)) + "\n"), rest, pruned;
    }

    /** The Hash `call` writes as JSON, before `to_json`. */
    method Build(severity: Value, time: Value, progname: Value, msg: Value)
      returns (r: Result<seq<Field>, RubyError>, pruned: Option<Value>)
      ensures r == Record(config, severity, time, progname, msg)
      ensures r.Ok? ==> pruned == if msg.Hash? && TakesTags(msg.fields) then Some(Pruned(Get(msg.fields, TagsKey).value)) else None
    {
      pruned := None;
      var log := MetaLog(severity, time, progname);
      if msg.Hash? {
        var staged;
        staged, pruned := StageMessage(log, msg.fields);
        if staged.Err? {
          return Err(staged.error), pruned;
        }
        log := DeepMerge(staged.value.log, staged.value.message);
      } else {
        log := Put(log, MessageKey, msg);
      }
      return Ok(log), pruned;
    }
  }
}
