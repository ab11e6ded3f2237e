/**
 * What `JSONFormatter` promises about the records it writes: which metadata fields
 * appear, how `hashify_tag` reads a tag, what hoisting leaves under `tags`, and how the
 * message is merged last.
 */
module JsonFormatterProps {
  import opened Wrappers
  import opened Values
  import opened TagSyntax
  import opened JsonFormatter

  // ---------------------------------------------------------------------------
  // Metadata

  /** `level`, `timestamp` and `progname` appear exactly when enabled, in that order, with the values given. */
  lemma {:induction false} MetaFields(c: Config, severity: Value, time: Value, progname: Value)
    ensures Keys(Meta(c, severity, time, progname)) ==
      (if c.severity then [LevelKey] else []) + (if c.timestamp then [TimestampKey] else []) + (if c.progname then [PrognameKey] else [])
    ensures c.severity ==> Get(Meta(c, severity, time, progname), LevelKey) == Some(severity)
    ensures c.timestamp ==> Get(Meta(c, severity, time, progname), TimestampKey) == Some(time)
    ensures c.progname ==> Get(Meta(c, severity, time, progname), PrognameKey) == Some(progname)
  {
    var log0: seq<Field> := [];
    var log1 := if c.severity then Put(log0, LevelKey, severity) else log0;
    var log2 := if c.timestamp then Put(log1, TimestampKey, time) else log1;
    if c.severity {
      PutGet(log0, LevelKey, severity, LevelKey);
      PutGet(log1, TimestampKey, time, LevelKey);
      PutGet(log2, PrognameKey, progname, LevelKey);
    }
    if c.timestamp {
      PutGet(log1, TimestampKey, time, TimestampKey);
      PutGet(log2, PrognameKey, progname, TimestampKey);
    }
    if c.progname {
      PutGet(log2, PrognameKey, progname, PrognameKey);
    }
  }

  /** The metadata never holds `message` or `tags`. */
  lemma MetaLacks(c: Config, severity: Value, time: Value, progname: Value)
    ensures MessageKey !in Keys(Meta(c, severity, time, progname))
    ensures TagsKey !in Keys(Meta(c, severity, time, progname))
  {
    MetaFields(c, severity, time, progname);
  }

  // ---------------------------------------------------------------------------
  // A message that is not a Hash

  /** The record is the metadata followed by `message: msg`, and nothing else. */
  lemma {:induction false} PlainMessage(c: Config, severity: Value, time: Value, progname: Value, msg: Value)
    requires !msg.Hash?
    ensures Record(c, severity, time, progname, msg).Ok?
    ensures Keys(Record(c, severity, time, progname, msg).value) == Keys(Meta(c, severity, time, progname)) + [MessageKey]
    ensures forall k :: Get(Record(c, severity, time, progname, msg).value, k) ==
                        (if k == MessageKey then Some(msg) else Get(Meta(c, severity, time, progname), k))
  {
    var meta := Meta(c, severity, time, progname);
    MetaLacks(c, severity, time, progname);
    forall k ensures Get(Put(meta, MessageKey, msg), k) == if k == MessageKey then Some(msg) else Get(meta, k) {
      PutGet(meta, MessageKey, msg, k);
    }
  }

  // ---------------------------------------------------------------------------
  // `hashify_tag`

  /** A tag that is not a String of `key=value` pairs comes back as it was. */
  lemma HashifyOpaque(tag: Value)
    requires !(tag.Str? && Matches(tag.s))
    ensures Hashify(tag) == Ok(tag)
  {
    if tag.Str? {
      ExtractableIffMatches(tag.s);
    }
  }

  /** Only a String of `key=value` pairs is turned into a Hash. */
  lemma HashifiedMatches(s: string)
    requires Hoisted(Str(s))
    ensures Matches(s)
  {
    ExtractableIffMatches(s);
  }

  /** The value the last pair with key `name` gives it, if any. */
  function LastValue(ps: seq<Pair>, name: string): Option<string>
  {
    if ps == [] then None
    else
      var later := LastValue(ps[1..], name);
      if later.Some? then later
      else if ps[0].key == name then Some(ps[0].value)
      else None
  }

  predicate Undotted(ps: seq<Pair>) {
    forall i :: 0 <= i < |ps| ==> '.' !in ps[i].key
  }

  /** Keys without dots: each key holds the literal text of its last pair, and nothing fails. */
  lemma {:induction false} StoreFlat(h: seq<Field>, ps: seq<Pair>, name: string)
    requires Undotted(ps)
    ensures StorePairs(h, ps).Ok?
    ensures Get(StorePairs(h, ps).value, StrKey(name)) ==
      if LastValue(ps, name).Some? then Some(Str(LastValue(ps, name).value)) else Get(h, StrKey(name))
    decreases |ps|
  {
    if ps != [] {
      var h' := Put(h, StrKey(ps[0].key), Str(ps[0].value));
      assert Undotted(ps[1..]) by {
        forall i | 0 <= i < |ps| - 1 ensures '.' !in ps[1..][i].key {
          assert ps[1..][i] == ps[i + 1];
        }
      }
      StoreFlat(h', ps[1..], name);
      PutGet(h, StrKey(ps[0].key), Str(ps[0].value), StrKey(name));
    }
  }

  /**
   * One dotted pair `prefix.name=v` on a Hash where `prefix` is missing or holds a Hash:
   * `name` is set inside that Hash, its other entries stay (pairs sharing a prefix
   * accumulate), and no other key of the outer Hash changes.
   */
  lemma {:induction false} StoreDotted(h: seq<Field>, prefix: string, name: string, v: string, sep: Option<char>)
    requires '.' !in prefix && '.' !in name && name != ""
    requires Get(h, StrKey(prefix)).None? || Get(h, StrKey(prefix)).value.Hash?
    ensures StorePair(h, Pair(prefix + "." + name, v, sep)).Ok?
    ensures var r := StorePair(h, Pair(prefix + "." + name, v, sep)).value;
      var before := if Get(h, StrKey(prefix)).None? then [] else Get(h, StrKey(prefix)).value.fields;
      Get(r, StrKey(prefix)).Some? && Get(r, StrKey(prefix)).value.Hash? &&
      (forall n :: Get(Get(r, StrKey(prefix)).value.fields, StrKey(n)) == if n == name then Some(Str(v)) else Get(before, StrKey(n))) &&
      (forall k :: k != StrKey(prefix) ==> Get(r, k) == Get(h, k))
  {
    DottedDig(h, prefix, name, v, sep);
    var before := if Get(h, StrKey(prefix)).None? then [] else Get(h, StrKey(prefix)).value.fields;
    var inner := Put(before, StrKey(name), Str(v));
    forall n ensures Get(inner, StrKey(n)) == if n == name then Some(Str(v)) else Get(before, StrKey(n)) {
      PutGet(before, StrKey(name), Str(v), StrKey(n));
    }
    forall k ensures Get(Put(h, StrKey(prefix), Hash(inner)), k) == if k == StrKey(prefix) then Some(Hash(inner)) else Get(h, k) {
      PutGet(h, StrKey(prefix), Hash(inner), k);
    }
  }

  /** A key whose only dot is at its end (`a.=x`) makes `dig` run with no keys: ArgumentError. */
  lemma TrailingDotRaises(h: seq<Field>, name: string, v: string, sep: Option<char>)
    requires '.' !in name
    ensures StorePair(h, Pair(name + ".", v, sep)) == Err(ArgumentError)
  {
    var key := name + ".";
    assert key[|name|] == '.';
    TrailingDot(name);
  }

  /** `prefix.name=v` over a String: the first occurrence of `name` is replaced, or IndexError when there is none. */
  lemma StoreIntoString(h: seq<Field>, prefix: string, name: string, v: string, sep: Option<char>)
    requires '.' !in prefix && '.' !in name && name != ""
    requires Get(h, StrKey(prefix)).Some? && Get(h, StrKey(prefix)).value.Str?
    ensures var text := Get(h, StrKey(prefix)).value.s;
      StorePair(h, Pair(prefix + "." + name, v, sep)) ==
        if ReplaceFirst(text, name, v).None? then Err(IndexError)
        else Ok(Put(h, StrKey(prefix), Str(ReplaceFirst(text, name, v).value)))
  {
    DottedDig(h, prefix, name, v, sep);
  }

  // ---------------------------------------------------------------------------
  // What `hashify_tag` builds from a String

  /** A Hash as `hashify_tag` builds it: String keys only, holding Strings or such Hashes. */
  predicate TagFields(fs: seq<Field>) {
    forall f :: f in fs ==> !f.sym && (f.val.Str? || (f.val.Hash? && TagFields(f.val.fields)))
  }

  /** Both what `hashify_tag` builds and what any Ruby Hash is: no key twice. */
  predicate TagHash(fs: seq<Field>) {
    TagFields(fs) && FieldsWellFormed(fs)
  }

  lemma PutTagHash(fs: seq<Field>, name: string, v: Value)
    requires TagHash(fs) && (v.Str? || (v.Hash? && TagHash(v.fields)))
    ensures TagHash(Put(fs, StrKey(name), v))
  {
    PutMembers(fs, StrKey(name), v);
    PutWellFormed(fs, StrKey(name), v);
  }

  lemma InnerTagHash(h: seq<Field>, k: Key)
    requires TagHash(h) && Get(h, k).Some? && Get(h, k).value.Hash?
    ensures TagHash(Get(h, k).value.fields)
  {
    GetNone(h, k);
    var i := GetFound(h, k);
    assert h[i] in h && WellFormed(h[i].val);
  }

  lemma {:induction false} DigTagHash(h: seq<Field>, prefix: seq<string>, last: string, v: string)
    requires |prefix| > 0 && TagHash(h) && Dig(h, prefix, last, v).Ok?
    ensures TagHash(Dig(h, prefix, last, v).value)
    decreases |prefix|
  {
    var key := StrKey(prefix[0]);
    var found := Get(h, key);
    if found.None? || found.value.Hash? {
      var inner := if found.None? then [] else found.value.fields;
      if found.Some? {
        InnerTagHash(h, key);
      }
      if |prefix| == 1 {
        PutTagHash(inner, last, Str(v));
        PutTagHash(h, prefix[0], Hash(Put(inner, StrKey(last), Str(v))));
      } else {
        DigTagHash(inner, prefix[1..], last, v);
        PutTagHash(h, prefix[0], Hash(Dig(inner, prefix[1..], last, v).value));
      }
    } else if found.value.Str? && |prefix| == 1 {
      var replaced := ReplaceFirst(found.value.s, last, v);
      if replaced.Some? {
        PutTagHash(h, prefix[0], Str(replaced.value));
      }
    }
  }

  lemma {:induction false} StorePairsTagHash(h: seq<Field>, ps: seq<Pair>)
    requires TagHash(h) && StorePairs(h, ps).Ok?
    ensures TagHash(StorePairs(h, ps).value)
    decreases |ps|
  {
    if ps != [] {
      var p := ps[0];
      if '.' in p.key {
        var path := SplitDots(p.key);
        DigTagHash(h, path[..|path| - 1], path[|path| - 1], p.value);
      } else {
        PutTagHash(h, p.key, Str(p.value));
      }
      StorePairsTagHash(StorePair(h, p).value, ps[1..]);
    }
  }

  /**
   * A String tag becomes a Hash with String keys only and no key twice; so it never
   * carries the Symbol key `:tags`.
   */
  lemma HashifiedString(s: string)
    requires Hoisted(Str(s))
    ensures TagHash(Hashify(Str(s)).value.fields)
    ensures TagsKey !in Keys(Hashify(Str(s)).value.fields)
  {
    StorePairsTagHash([], ScanPairs(s).0);
    var fs := Hashify(Str(s)).value.fields;
    forall i | 0 <= i < |fs| ensures Keys(fs)[i] != TagsKey {
      assert fs[i] in fs;
    }
  }

  // ---------------------------------------------------------------------------
  // Hoisting

  /** The entries of a tag list that stay: neither Hashes nor extractable Strings, in their order. */
  function Opaque(tags: seq<Value>): seq<Value>
  {
    if tags == [] then [] else (if Hoisted(tags[0]) then [] else [tags[0]]) + Opaque(tags[1..])
  }

  /** The entries of a tag Hash that stay: those whose key, handed to the block, is not hoisted. */
  function OpaqueFields(fs: seq<Field>): seq<Field>
  {
    if fs == [] then [] else (if Hoisted(KeyAsValue(fs[0].key)) then [] else [fs[0]]) + OpaqueFields(fs[1..])
  }

  /** A tag whose Hash replaces `log[:tags]` when merged. */
  predicate Carries(tag: Value) {
    Hoisted(tag) && TagsKey in Keys(Hashify(tag).value.fields)
  }

  /** The loop raises exactly when `hashify_tag` raises on some entry. */
  lemma {:induction false} HoistSucceeds(st: Hoisting, tags: seq<Value>)
    ensures Hoist(st, tags).Ok? <==> forall i :: 0 <= i < |tags| ==> Hashify(tags[i]).Ok?
    decreases |tags|
  {
    if tags != [] {
      var next := HoistStep(st, tags[0]);
      if next.Ok? {
        HoistSucceeds(next.value, tags[1..]);
        assert forall i :: 0 < i < |tags| ==> tags[i] == tags[1..][i - 1];
      }
    }
  }

  /** `log[:tags]` stays the list being filtered unless a hoisted Hash carries `:tags`. */
  lemma {:induction false} HoistLive(st: Hoisting, tags: seq<Value>)
    requires Hoist(st, tags).Ok?
    ensures Hoist(st, tags).value.live <==> st.live && forall i :: 0 <= i < |tags| ==> !Carries(tags[i])
    decreases |tags|
  {
    if tags != [] {
      var next := HoistStep(st, tags[0]).value;
      HoistLive(next, tags[1..]);
      assert forall i :: 0 < i < |tags| ==> tags[i] == tags[1..][i - 1];
    }
  }

  /** A key no hoisted Hash holds keeps its value through the loop. */
  lemma {:induction false} HoistElsewhere(st: Hoisting, tags: seq<Value>, k: Key)
    requires Hoist(st, tags).Ok?
    requires forall i :: 0 <= i < |tags| && Hoisted(tags[i]) ==> k !in Keys(Hashify(tags[i]).value.fields)
    ensures Get(Hoist(st, tags).value.log, k) == Get(st.log, k)
    decreases |tags|
  {
    if tags != [] {
      var next := HoistStep(st, tags[0]).value;
      assert forall i :: 0 <= i < |tags| - 1 ==> tags[1..][i] == tags[i + 1];
      HoistElsewhere(next, tags[1..], k);
      if Hoisted(tags[0]) {
        DeepMergeElsewhere(st.log, Hashify(tags[0]).value.fields, k);
      }
    }
  }

  /** The keys already in the record keep their places; hoisted keys come after them. */
  lemma {:induction false} HoistKeepsOrder(st: Hoisting, tags: seq<Value>)
    requires Hoist(st, tags).Ok?
    ensures Keys(st.log) <= Keys(Hoist(st, tags).value.log)
    decreases |tags|
  {
    if tags != [] {
      var next := HoistStep(st, tags[0]).value;
      HoistKeepsOrder(next, tags[1..]);
      if Hoisted(tags[0]) {
        DeepMergeKeepsOrder(st.log, Hashify(tags[0]).value.fields);
      }
    }
  }

  /** A hoisted entry is deep-merged into the record, key by key, and marked for deletion. */
  lemma HoistStepMerges(st: Hoisting, tag: Value, k: Key)
    requires Hoisted(tag) && Distinct(Keys(Hashify(tag).value.fields))
    ensures HoistStep(st, tag).Ok? && !HoistStep(st, tag).value.keep[|st.keep|]
    ensures Get(HoistStep(st, tag).value.log, k) == MergedAt(Get(st.log, k), Get(Hashify(tag).value.fields, k))
  {
    DeepMergeGet(st.log, Hashify(tag).value.fields, k);
  }

  lemma {:induction false} FilterMarks(tags: seq<Value>)
    ensures Filter(tags, Marks(tags)) == Opaque(tags)
    decreases |tags|
  {
    if tags != [] {
      FilterMarks(tags[1..]);
    }
  }

  lemma {:induction false} FilterFieldMarks(fs: seq<Field>)
    ensures Filter(fs, Marks(KeyValues(fs))) == OpaqueFields(fs)
    decreases |fs|
  {
    if fs != [] {
      FilterFieldMarks(fs[1..]);
    }
  }

  /** What `delete_if` leaves: the opaque entries, in their original order. */
  lemma SurvivorsOpaque(tags: Value)
    requires Filterable(tags)
    ensures Pruned(tags) == if tags.Arr? then Arr(Opaque(tags.items)) else Hash(OpaqueFields(tags.fields))
  {
    if tags.Arr? {
      FilterMarks(tags.items);
    } else {
      FilterFieldMarks(tags.fields);
    }
  }

  // ---------------------------------------------------------------------------
  // The record before the message is merged

  /** `log[:tags].empty?` on a collection: the key goes when the collection is empty. */
  lemma DropOutcome(log: seq<Field>, left: Value)
    requires Get(log, TagsKey) == Some(left) && Filterable(left)
    ensures DropEmptyTags(log).Ok?
    ensures Get(DropEmptyTags(log).value, TagsKey) == if left == Arr([]) || left == Hash([]) then None else Some(left)
  {
    DeleteGet(log, TagsKey, TagsKey);
  }

  /** Dropping an empty `tags` touches no other key. */
  lemma DropElsewhere(log: seq<Field>, k: Key)
    requires DropEmptyTags(log).Ok? && k != TagsKey
    ensures Get(DropEmptyTags(log).value, k) == Get(log, k)
  {
    DeleteGet(log, TagsKey, k);
  }

  /**
   * When no entry raises and none carries `:tags`, `tags` holds exactly the opaque
   * entries in their original order, and is absent when there are none.
   */
  lemma TagsOutcome(meta: seq<Field>, msg: seq<Field>)
    requires Get(msg, TagsKey).Some? && Filterable(Get(msg, TagsKey).value)
    requires forall t :: t in Probes(Get(msg, TagsKey).value) ==> Hashify(t).Ok? && !Carries(t)
    ensures Stage(meta, msg).Ok?
    ensures var tags := Get(msg, TagsKey).value;
      var left := if tags.Arr? then Arr(Opaque(tags.items)) else Hash(OpaqueFields(tags.fields));
      Get(Stage(meta, msg).value.log, TagsKey) == if left == Arr([]) || left == Hash([]) then None else Some(left)
  {
    var tags := Get(msg, TagsKey).value;
    var probes := Probes(tags);
    var start := Hoisting(Put(meta, TagsKey, tags), [], true);
    assert forall i :: 0 <= i < |probes| ==> probes[i] in probes;
    HoistSucceeds(start, probes);
    HoistMarks(start, probes);
    HoistLive(start, probes);
    SurvivorsOpaque(tags);
    var st := Hoist(start, probes).value;
    assert st.live && st.keep == Marks(probes);
    var left := Survivors(tags, st.keep);
    PutGet(st.log, TagsKey, left, TagsKey);
    DropOutcome(Put(st.log, TagsKey, left), left);
    assert Stage(meta, msg) == Ok(Staged(DropEmptyTags(Put(st.log, TagsKey, left)).value, Delete(msg, TagsKey)));
  }

  /** Hoisting changes only `tags` and the keys the hoisted Hashes hold. */
  lemma StageElsewhere(meta: seq<Field>, msg: seq<Field>, k: Key)
    requires Stage(meta, msg).Ok? && k != TagsKey
    requires Get(msg, TagsKey).Some? && Filterable(Get(msg, TagsKey).value)
    requires forall t :: t in Probes(Get(msg, TagsKey).value) && Hoisted(t) ==> k !in Keys(Hashify(t).value.fields)
    ensures Get(Stage(meta, msg).value.log, k) == Get(meta, k)
  {
    var tags := Get(msg, TagsKey).value;
    var probes := Probes(tags);
    var start := Hoisting(Put(meta, TagsKey, tags), [], true);
    assert forall i :: 0 <= i < |probes| ==> probes[i] in probes;
    HoistElsewhere(start, probes, k);
    PutGet(meta, TagsKey, tags, k);
    var st := Hoist(start, probes).value;
    PutGet(st.log, TagsKey, Survivors(tags, st.keep), k);
    DropElsewhere(if st.live then Put(st.log, TagsKey, Survivors(tags, st.keep)) else st.log, k);
  }

  /** The metadata keys come first, then `tags` while it is present, then hoisted keys. */
  lemma DropKeepsOrder(log: seq<Field>, p: seq<Key>)
    requires p + [TagsKey] <= Keys(log) && TagsKey !in p && DropEmptyTags(log).Ok?
    ensures p <= Keys(DropEmptyTags(log).value)
    ensures TagsKey in Keys(DropEmptyTags(log).value) ==> p + [TagsKey] <= Keys(DropEmptyTags(log).value)
  {
    PrefixTrans(p, p + [TagsKey], Keys(log));
    if DropEmptyTags(log).value != log {
      DeleteKeepsPrefix(log, TagsKey, p);
      DeleteAbsent(log, TagsKey);
    }
  }

  lemma StageOrder(meta: seq<Field>, msg: seq<Field>)
    requires Stage(meta, msg).Ok? && TagsKey !in Keys(meta)
    ensures Keys(meta) <= Keys(Stage(meta, msg).value.log)
    ensures TagsKey in Keys(Stage(meta, msg).value.log) ==> Keys(meta) + [TagsKey] <= Keys(Stage(meta, msg).value.log)
  {
    var tags := Get(msg, TagsKey);
    if tags.Some? && Filterable(tags.value) {
      var start := Hoisting(Put(meta, TagsKey, tags.value), [], true);
      var st := Hoist(start, Probes(tags.value)).value;
      HoistKeepsOrder(start, Probes(tags.value));
      var log := if st.live then Put(st.log, TagsKey, Survivors(tags.value, st.keep)) else st.log;
      DropKeepsOrder(log, Keys(meta));
    }
  }

  // ---------------------------------------------------------------------------
  // The message, merged last

  /** What is merged from the message: all of it but the `:tags` collection that was hoisted. */
  lemma StagedMessage(meta: seq<Field>, msg: seq<Field>)
    requires Stage(meta, msg).Ok? && FieldsWellFormed(msg)
    ensures FieldsWellFormed(Stage(meta, msg).value.message)
    ensures var tags := Get(msg, TagsKey);
      forall k :: Get(Stage(meta, msg).value.message, k) ==
                  (if k == TagsKey && tags.Some? && Filterable(tags.value) then None else Get(msg, k))
  {
    var tags := Get(msg, TagsKey);
    if tags.Some? && Filterable(tags.value) {
      assert Stage(meta, msg).value.message == Delete(msg, TagsKey);
      DeleteWellFormed(msg, TagsKey);
      forall k ensures Get(Delete(msg, TagsKey), k) == if k == TagsKey then None else Get(msg, k) {
        DeleteGet(msg, TagsKey, k);
      }
    }
  }

  /**
   * A Hash message is deep-merged over the staged record: its leaves win, Hashes at the
   * same key merge, keys on one side only survive, and new message keys come last, after
   * the metadata.
   */
  lemma MessageMergedLast(c: Config, severity: Value, time: Value, progname: Value, msg: Value)
    requires msg.Hash? && FieldsWellFormed(msg.fields)
    requires Record(c, severity, time, progname, msg).Ok?
    ensures var s := Stage(Meta(c, severity, time, progname), msg.fields).value;
      var r := Record(c, severity, time, progname, msg).value;
      Keys(r) == Keys(s.log) + NewKeys(Keys(s.log), Keys(s.message)) &&
      Keys(Meta(c, severity, time, progname)) <= Keys(r) &&
      forall k :: Get(r, k) == MergedAt(Get(s.log, k), Get(s.message, k))
  {
    var meta := Meta(c, severity, time, progname);
    var s := Stage(meta, msg.fields).value;
    assert Record(c, severity, time, progname, msg) == Ok(DeepMerge(s.log, s.message));
    StagedMessage(meta, msg.fields);
    forall k ensures Get(DeepMerge(s.log, s.message), k) == MergedAt(Get(s.log, k), Get(s.message, k)) {
      DeepMergeGet(s.log, s.message, k);
    }
    DeepMergeKeys(s.log, s.message);
    MetaLacks(c, severity, time, progname);
    StageOrder(meta, msg.fields);
    PrefixTrans(Keys(meta), Keys(s.log), Keys(DeepMerge(s.log, s.message)));
  }

  /**
   * Without a collection under `:tags` nothing is hoisted: the record is the metadata
   * deep-merged with the message, `tags` included as the message has it.
   */
  lemma NoHoisting(c: Config, severity: Value, time: Value, progname: Value, msg: Value)
    requires msg.Hash? && FieldsWellFormed(msg.fields)
    requires Get(msg.fields, TagsKey).None? || !Filterable(Get(msg.fields, TagsKey).value)
    ensures Record(c, severity, time, progname, msg).Ok?
    ensures var r := Record(c, severity, time, progname, msg).value;
      var meta := Meta(c, severity, time, progname);
      Get(r, TagsKey) == Get(msg.fields, TagsKey) &&
      forall k :: Get(r, k) == MergedAt(Get(meta, k), Get(msg.fields, k))
  {
    var meta := Meta(c, severity, time, progname);
    forall k ensures Get(DeepMerge(meta, msg.fields), k) == MergedAt(Get(meta, k), Get(msg.fields, k)) {
      DeepMergeGet(meta, msg.fields, k);
    }
    MetaLacks(c, severity, time, progname);
    GetNone(meta, TagsKey);
  }

  // ---------------------------------------------------------------------------
  // Tags read back from their pairs

  /** A String made of a chain of pairs is hashified from exactly those pairs. */
  lemma HashifyScanned(ps: seq<Pair>)
    requires Chained(ps) && ps != []
    ensures Hashify(Str(Unscan(ps))) ==
      (var r := StorePairs([], ps); if r.Ok? then Ok(Hash(r.value)) else Err(r.error))
  {
    ScanComplete(ps, "");
    assert Unscan(ps) + "" == Unscan(ps);
  }

  /**
   * Pairs without dots: the tag becomes a Hash whose every key holds the literal value
   * text of its last pair, with no conversion.
   */
  lemma ExtractsLiteralValues(ps: seq<Pair>, name: string)
    requires Chained(ps) && ps != [] && Undotted(ps)
    ensures Hoisted(Str(Unscan(ps)))
    ensures Get(Hashify(Str(Unscan(ps))).value.fields, StrKey(name)) ==
      if LastValue(ps, name).Some? then Some(Str(LastValue(ps, name).value)) else None
  {
    HashifyScanned(ps);
    StoreFlat([], ps, name);
  }

  /** `p.name=v` on an empty tag Hash creates the nested Hash. */
  lemma StoreDottedFirst(p: string, name: string, v: string, sep: Option<char>)
    requires '.' !in p && '.' !in name && name != ""
    ensures StorePair([], Pair(p + "." + name, v, sep)) == Ok([Field(false, p, Hash([Field(false, name, Str(v))]))])
  {
    DottedDig([], p, name, v, sep);
  }

  /** `p.name=v` with a new `name` on a tag Hash holding only `p`: `name` is appended inside. */
  lemma StoreDottedNext(p: string, inner: seq<Field>, name: string, v: string, sep: Option<char>)
    requires '.' !in p && '.' !in name && name != "" && StrKey(name) !in Keys(inner)
    ensures StorePair([Field(false, p, Hash(inner))], Pair(p + "." + name, v, sep)) ==
      Ok([Field(false, p, Hash(inner + [Field(false, name, Str(v))]))])
  {
    var h := [Field(false, p, Hash(inner))];
    DottedDig(h, p, name, v, sep);
    assert Get(h, StrKey(p)) == Some(Hash(inner));
    DigInto(h, p, inner, name, v);
    PutNew(inner, StrKey(name), Str(v));
    var inner' := inner + [Field(false, name, Str(v))];
    assert Put(h, StrKey(p), Hash(inner')) == [Field(false, p, Hash(inner'))];
  }

  /** Digging one level into a Hash sets the name inside it. */
  lemma DigInto(h: seq<Field>, p: string, inner: seq<Field>, name: string, v: string)
    requires Get(h, StrKey(p)) == Some(Hash(inner))
    ensures Dig(h, [p], name, v) == Ok(Put(h, StrKey(p), Hash(Put(inner, StrKey(name), Str(v)))))
  {
  }

  /** A key with one dot inside is dug one level deep. */
  lemma DottedDig(h: seq<Field>, p: string, name: string, v: string, sep: Option<char>)
    requires '.' !in p && '.' !in name && name != ""
    ensures StorePair(h, Pair(p + "." + name, v, sep)) == Dig(h, [p], name, v)
  {
    var key := p + "." + name;
    assert key[|p|] == '.';
    SplitTwo(p, name);
    assert [p, name][..1] == [p];
  }

  /** Below a first level that is missing or a Hash, a path is read on inside what that level holds. */
  lemma AtInto(h: seq<Field>, path: seq<string>)
    requires |path| > 1
    requires Get(h, StrKey(path[0])).None? || Get(h, StrKey(path[0])).value.Hash?
    ensures var found := Get(h, StrKey(path[0]));
      At(h, path) == At(if found.None? then [] else found.value.fields, path[1..])
  {
    if Get(h, StrKey(path[0])).None? {
      assert Get([], StrKey(path[1])) == None;
    }
  }

  /**
   * `h.dig(*prefix)[last] = v` at any depth, where every level is missing or a Hash:
   * nothing raises, the path ends in `v`, the other entries at the bottom level keep
   * their values, and no other top-level key changes.
   */
  lemma {:induction false} DigSets(h: seq<Field>, prefix: seq<string>, last: string, v: string)
    requires |prefix| > 0 && Diggable(h, prefix)
    ensures Dig(h, prefix, last, v).Ok?
    ensures var r := Dig(h, prefix, last, v).value;
      && At(r, prefix + [last]) == Some(Str(v))
      && (forall n :: n != last ==> At(r, prefix + [n]) == At(h, prefix + [n]))
      && (forall k :: k != StrKey(prefix[0]) ==> Get(r, k) == Get(h, k))
    decreases |prefix|
  {
    var key := StrKey(prefix[0]);
    var found := Get(h, key);
    var inner := if found.None? then [] else found.value.fields;
    var inner';
    if |prefix| == 1 {
      inner' := Put(inner, StrKey(last), Str(v));
    } else {
      DigSets(inner, prefix[1..], last, v);
      inner' := Dig(inner, prefix[1..], last, v).value;
    }
    var r := Put(h, key, Hash(inner'));
    assert Dig(h, prefix, last, v) == Ok(r);
    forall k | k != key
      ensures Get(r, k) == Get(h, k)
    {
      PutGet(h, key, Hash(inner'), k);
    }
    forall n
      ensures At(r, prefix + [n]) == if n == last then Some(Str(v)) else At(h, prefix + [n])
    {
      DigSetsAt(h, prefix, last, v, inner', n);
    }
  }

  /** One name under the path, for DigSets: the new top entry leads to what the dig below it set. */
  lemma DigSetsAt(h: seq<Field>, prefix: seq<string>, last: string, v: string, inner': seq<Field>, n: string)
    requires |prefix| > 0
    requires var found := Get(h, StrKey(prefix[0])); found.None? || found.value.Hash?
    requires var found := Get(h, StrKey(prefix[0]));
      var inner := if found.None? then [] else found.value.fields;
      if |prefix| == 1 then inner' == Put(inner, StrKey(last), Str(v))
      else At(inner', prefix[1..] + [n]) == if n == last then Some(Str(v)) else At(inner, prefix[1..] + [n])
    ensures At(Put(h, StrKey(prefix[0]), Hash(inner')), prefix + [n]) == if n == last then Some(Str(v)) else At(h, prefix + [n])
  {
    var key := StrKey(prefix[0]);
    var found := Get(h, key);
    var inner := if found.None? then [] else found.value.fields;
    var r := Put(h, key, Hash(inner'));
    PutGet(h, key, Hash(inner'), key);
    var path := prefix + [n];
    assert path[0] == prefix[0] && path[1..] == prefix[1..] + [n];
    AtInto(r, path);
    AtInto(h, path);
    if |prefix| == 1 {
      PutGet(inner, StrKey(last), Str(v), StrKey(n));
    }
  }

  /**
   * `dig` meets a value other than a Hash at level `j`, before the last level of
   * `prefix`, having gone through Hashes only: `dig` raises TypeError.
   */
  lemma {:induction false} DigThroughNonHash(h: seq<Field>, prefix: seq<string>, last: string, v: string, j: nat)
    requires j + 1 < |prefix|
    requires forall i :: 0 < i <= j ==> At(h, prefix[..i]).Some? && At(h, prefix[..i]).value.Hash?
    requires At(h, prefix[..j + 1]).Some? && !At(h, prefix[..j + 1]).value.Hash?
    ensures Dig(h, prefix, last, v) == Err(TypeError)
    decreases j
  {
    if j > 0 {
      assert prefix[..1] == [prefix[0]];
      var inner := Get(h, StrKey(prefix[0])).value.fields;
      forall i | 0 < i <= j + 1
        ensures At(h, prefix[..i + 1]) == At(inner, prefix[1..][..i])
      {
        assert prefix[..i + 1][0] == prefix[0] && prefix[..i + 1][1..] == prefix[1..][..i];
        AtInto(h, prefix[..i + 1]);
      }
      DigThroughNonHash(inner, prefix[1..], last, v, j - 1);
    } else {
      assert prefix[..1] == [prefix[0]];
    }
  }

  /**
   * A key of two or more dot-free parts, `a.b.c=v`, on a tag Hash where every level
   * above the last is missing or a Hash: the nested Hashes are created or entered, the
   * path holds `v`, and the other entries beside it and at the top keep their values.
   */
  lemma StoreDeep(h: seq<Field>, path: seq<string>, v: string, sep: Option<char>)
    requires |path| >= 2 && (forall i :: 0 <= i < |path| ==> '.' !in path[i]) && path[|path| - 1] != ""
    requires Diggable(h, path[..|path| - 1])
    ensures StorePair(h, Pair(Join(path, '.'), v, sep)).Ok?
    ensures var r := StorePair(h, Pair(Join(path, '.'), v, sep)).value;
      && At(r, path) == Some(Str(v))
      && (forall n :: n != path[|path| - 1] ==> At(r, path[..|path| - 1] + [n]) == At(h, path[..|path| - 1] + [n]))
      && (forall k :: k != StrKey(path[0]) ==> Get(r, k) == Get(h, k))
  {
    var prefix, last := path[..|path| - 1], path[|path| - 1];
    assert prefix + [last] == path;
    DeepStorePair(h, path, v, sep);
    DigSets(h, prefix, last, v);
  }

  /** The same key where a level above the last holds a String: TypeError. */
  lemma StoreDeepRaises(h: seq<Field>, path: seq<string>, v: string, sep: Option<char>, j: nat)
    requires |path| >= 2 && (forall i :: 0 <= i < |path| ==> '.' !in path[i]) && path[|path| - 1] != ""
    requires j + 2 < |path|
    requires forall i :: 0 < i <= j ==> At(h, path[..i]).Some? && At(h, path[..i]).value.Hash?
    requires At(h, path[..j + 1]).Some? && At(h, path[..j + 1]).value.Str?
    ensures StorePair(h, Pair(Join(path, '.'), v, sep)) == Err(TypeError)
  {
    DeepStorePair(h, path, v, sep);
    var prefix := path[..|path| - 1];
    forall i | 0 < i <= j + 1
      ensures prefix[..i] == path[..i]
    {
    }
    DigThroughNonHash(h, prefix, path[|path| - 1], v, j);
  }

  /** A key joined from dot-free parts is split back into them and dug. */
  lemma DeepStorePair(h: seq<Field>, path: seq<string>, v: string, sep: Option<char>)
    requires |path| >= 2 && (forall i :: 0 <= i < |path| ==> '.' !in path[i]) && path[|path| - 1] != ""
    ensures StorePair(h, Pair(Join(path, '.'), v, sep)) == Dig(h, path[..|path| - 1], path[|path| - 1], v)
  {
    var key := Join(path, '.');
    assert key[|path[0]|] == '.';
    SplitDotsJoin(path);
  }

  /** `a.b.c=v` on an empty tag Hash nests three levels deep. */
  lemma StoreThreeLevels(v: string, sep: Option<char>)
    ensures StorePair([], Pair("a.b.c", v, sep)) ==
      Ok([Field(false, "a", Hash([Field(false, "b", Hash([Field(false, "c", Str(v))]))]))])
  {
    var path := ["a", "b", "c"];
    JoinThree();
    DeepStorePair([], path, v, sep);
    assert path[..2] == ["a", "b"];
    DigTwoFresh(v);
  }

  lemma JoinThree()
    ensures Join(["a", "b", "c"], '.') == "a.b.c"
  {
    var path := ["a", "b", "c"];
    assert Join(path[2..], '.') == "c";
    assert Join(path[1..], '.') == "b.c";
  }

  /** Digging `a`, `b` into an empty Hash creates both levels. */
  lemma DigTwoFresh(v: string)
    ensures Dig([], ["a", "b"], "c", v) == Ok([Field(false, "a", Hash([Field(false, "b", Hash([Field(false, "c", Str(v))]))]))])
  {
    var c := [Field(false, "c", Str(v))];
    var b := [Field(false, "b", Hash(c))];
    assert Put([], StrKey("c"), Str(v)) == c;
    assert Dig([], ["b"], "c", v) == Ok(Put([], StrKey("b"), Hash(c)));
    assert ["a", "b"][1..] == ["b"];
  }

  /**
   * Three dotted pairs under one prefix, `p.a=x p.b=y p.c=z`, accumulate into one
   * nested Hash `{p => {a => x, b => y, c => z}}`.
   */
  lemma ExtractsNested(p: string, a: string, x: string, b: string, y: string, c: string, z: string)
    requires Chained([Pair(p + "." + a, x, Some(' ')), Pair(p + "." + b, y, Some(' ')), Pair(p + "." + c, z, None)])
    requires '.' !in p && '.' !in a && '.' !in b && '.' !in c && a != "" && b != "" && c != ""
    requires a != b && b != c && a != c
    ensures Hashify(Str(Unscan([Pair(p + "." + a, x, Some(' ')), Pair(p + "." + b, y, Some(' ')), Pair(p + "." + c, z, None)]))) ==
      Ok(Hash([Field(false, p, Hash([Field(false, a, Str(x)), Field(false, b, Str(y)), Field(false, c, Str(z))]))]))
  {
    HashifyScanned([Pair(p + "." + a, x, Some(' ')), Pair(p + "." + b, y, Some(' ')), Pair(p + "." + c, z, None)]);
    StoreNested(p, a, x, b, y, c, z);
  }

  lemma StoreNested(p: string, a: string, x: string, b: string, y: string, c: string, z: string)
    requires '.' !in p && '.' !in a && '.' !in b && '.' !in c && a != "" && b != "" && c != ""
    requires a != b && b != c && a != c
    ensures StorePairs([], [Pair(p + "." + a, x, Some(' ')), Pair(p + "." + b, y, Some(' ')), Pair(p + "." + c, z, None)]) ==
      Ok([Field(false, p, Hash([Field(false, a, Str(x)), Field(false, b, Str(y)), Field(false, c, Str(z))]))])
  {
    var pa, pb, pc := Pair(p + "." + a, x, Some(' ')), Pair(p + "." + b, y, Some(' ')), Pair(p + "." + c, z, None);
    var fa, fb, fc := Field(false, a, Str(x)), Field(false, b, Str(y)), Field(false, c, Str(z));
    var h1, h2, h3 := [Field(false, p, Hash([fa]))], [Field(false, p, Hash([fa, fb]))], [Field(false, p, Hash([fa, fb, fc]))];
    assert StorePair([], pa) == Ok(h1) by {
      StoreDottedFirst(p, a, x, Some(' '));
    }
    assert StorePair(h1, pb) == Ok(h2) by {
      assert Keys([fa]) == [StrKey(a)];
      StoreDottedNext(p, [fa], b, y, Some(' '));
      assert [fa] + [fb] == [fa, fb];
    }
    assert StorePair(h2, pc) == Ok(h3) by {
      assert Keys([fa, fb]) == [StrKey(a), StrKey(b)];
      StoreDottedNext(p, [fa, fb], c, z, None);
      assert [fa, fb] + [fc] == [fa, fb, fc];
    }
    StoreThree([], pa, pb, pc, h1, h2, h3);
  }

  /** Three pairs stored one after the other, none raising. */
  lemma StoreThree(h0: seq<Field>, pa: Pair, pb: Pair, pc: Pair, h1: seq<Field>, h2: seq<Field>, h3: seq<Field>)
    requires StorePair(h0, pa) == Ok(h1) && StorePair(h1, pb) == Ok(h2) && StorePair(h2, pc) == Ok(h3)
    ensures StorePairs(h0, [pa, pb, pc]) == Ok(h3)
  {
    StoreLast(h2, pc);
    StoreStep(h1, pb, [pc]);
    StoreStep(h0, pa, [pb, pc]);
    assert [pa, pb, pc] == [pa] + [pb, pc] && [pb, pc] == [pb] + [pc];
  }

  /** One pair stored, then the rest. */
  lemma StoreStep(h: seq<Field>, p: Pair, rest: seq<Pair>)
    ensures StorePairs(h, [p] + rest) ==
      (var r := StorePair(h, p); if r.Ok? then StorePairs(r.value, rest) else Err(r.error))
  {
    assert ([p] + rest)[1..] == rest;
  }

  /** A key whose only dot is at its end, as in `a.=x`, makes the tag raise ArgumentError. */
  lemma DotAtEndRaises(name: string, v: string)
    requires Chained([Pair(name + ".", v, None)]) && '.' !in name
    ensures Hashify(Str(Unscan([Pair(name + ".", v, None)]))) == Err(ArgumentError)
  {
    HashifyScanned([Pair(name + ".", v, None)]);
    TrailingDotRaises([], name, v, None);
  }

  /**
   * `k=s k.n=v`: the dotted pair finds a String under `k` and replaces the first `n` in
   * it by `v`, raising IndexError when `s` does not contain `n`.
   */
  lemma DottedOverString(k: string, s: string, n: string, v: string)
    requires Chained([Pair(k, s, Some(' ')), Pair(k + "." + n, v, None)])
    requires '.' !in k && '.' !in n && n != ""
    ensures Hashify(Str(Unscan([Pair(k, s, Some(' ')), Pair(k + "." + n, v, None)]))) ==
      if ReplaceFirst(s, n, v).None? then Err(IndexError) else Ok(Hash([Field(false, k, Str(ReplaceFirst(s, n, v).value))]))
  {
    HashifyScanned([Pair(k, s, Some(' ')), Pair(k + "." + n, v, None)]);
    StoreOverString(k, s, n, v);
  }

  lemma StoreOverString(k: string, s: string, n: string, v: string)
    requires '.' !in k && '.' !in n && n != ""
    ensures StorePairs([], [Pair(k, s, Some(' ')), Pair(k + "." + n, v, None)]) ==
      if ReplaceFirst(s, n, v).None? then Err(IndexError) else Ok([Field(false, k, Str(ReplaceFirst(s, n, v).value))])
  {
    var ps := [Pair(k, s, Some(' ')), Pair(k + "." + n, v, None)];
    var h := [Field(false, k, Str(s))];
    assert ps == [ps[0]] + [ps[1]];
    StoreStep([], ps[0], [ps[1]]);
    assert StorePair([], ps[0]) == Ok(h);
    StoreLast(h, ps[1]);
    assert Get(h, StrKey(k)) == Some(Str(s));
    StoreIntoString(h, k, n, v, None);
    if ReplaceFirst(s, n, v).Some? {
      var r := Str(ReplaceFirst(s, n, v).value);
      assert h[1..] == [];
      assert Put(h, StrKey(k), r) == [Field(false, k, r)];
    }
  }

  /** The loop over one pair is that pair's turn. */
  lemma StoreLast(h: seq<Field>, p: Pair)
    ensures StorePairs(h, [p]) == StorePair(h, p)
  {
    StoreStep(h, p, []);
    assert [p] == [p] + [];
  }

  // ---------------------------------------------------------------------------
  // A worked record: Hash tags and a Hash message, deep-merged

  /** The formatter of the example: `level: false`, so no metadata at all. */
  const Quiet: Config := Init(false, None, false, false)

  /** An entry under a Symbol key. */
  function S(name: string, v: Value): Field {
    Field(true, name, v)
  }

  // The tags `{a: {b: {c: v1}}}` and `{b: {a: v2}, c: v3}`, and the rest of the message.
  function TagOne(v1: string): Value {
    Hash([S("a", Hash([S("b", Hash([S("c", Str(v1))]))]))])
  }

  function TagTwo(v2: string, v3: string): Value {
    Hash([S("b", Hash([S("a", Str(v2))])), S("c", Str(v3))])
  }

  function MsgRest(v4: string, v5: string, v6: string, v7: string, v8: string): seq<Field> {
    [S("b", Hash([S("c", Str(v4))])),
     S("a", Hash([S("b", Hash([S("c", Str(v5)), S("d", Str(v6))])), S("c", Hash([S("d", Str(v7))]))])),
     S("c", Str(v8))]
  }

  function TagsEntry(v1: string, v2: string, v3: string): Field {
    S("tags", Arr([TagOne(v1), TagTwo(v2, v3)]))
  }

  /** The loop over a list, one entry at a time. */
  lemma HoistCons(st: Hoisting, t: Value, rest: seq<Value>)
    ensures Hoist(st, [t] + rest) ==
      (var r := HoistStep(st, t); if r.Ok? then Hoist(r.value, rest) else Err(r.error))
  {
    assert ([t] + rest)[1..] == rest;
  }

  /** A Hash tag with only new keys, none of them `:tags`, is appended to the record. */
  lemma HoistFreshHash(st: Hoisting, fs: seq<Field>)
    requires Distinct(Keys(st.log) + Keys(fs)) && TagsKey !in Keys(fs)
    ensures HoistStep(st, Hash(fs)) == Ok(Hoisting(st.log + fs, st.keep + [false], st.live))
  {
    DeepMergeFresh(st.log, fs);
  }

  /** The first Hash tag is merged into the record holding only `:tags`. */
  lemma ExampleFirstTag(v1: string, v2: string, v3: string)
    ensures HoistStep(Hoisting([TagsEntry(v1, v2, v3)], [], true), TagOne(v1)) ==
      Ok(Hoisting([TagsEntry(v1, v2, v3)] + TagOne(v1).fields, [false], true))
  {
    var log0 := [TagsEntry(v1, v2, v3)];
    assert Keys(log0) + Keys(TagOne(v1).fields) == [SymKey("tags"), SymKey("a")];
    HoistFreshHash(Hoisting(log0, [], true), TagOne(v1).fields);
    assert [] + [false] == [false];
  }

  /** The second Hash tag is merged after the first; it is the last one. */
  lemma ExampleSecondTag(log1: seq<Field>, v2: string, v3: string)
    requires Keys(log1) == [SymKey("tags"), SymKey("a")]
    ensures Hoist(Hoisting(log1, [false], true), [TagTwo(v2, v3)]) ==
      Ok(Hoisting(log1 + TagTwo(v2, v3).fields, [false, false], true))
  {
    assert Keys(log1) + Keys(TagTwo(v2, v3).fields) == [SymKey("tags"), SymKey("a"), SymKey("b"), SymKey("c")];
    HoistFreshHash(Hoisting(log1, [false], true), TagTwo(v2, v3).fields);
    var st2 := Hoisting(log1 + TagTwo(v2, v3).fields, [false, false], true);
    HoistCons(Hoisting(log1, [false], true), TagTwo(v2, v3), []);
    assert [TagTwo(v2, v3)] + [] == [TagTwo(v2, v3)];
    assert [false] + [false] == [false, false];
    assert Hoist(st2, []) == Ok(st2);
  }

  /** Both Hash tags are merged into the record and marked for deletion; neither carries `:tags`. */
  lemma ExampleHoist(v1: string, v2: string, v3: string)
    ensures Hoist(Hoisting([TagsEntry(v1, v2, v3)], [], true), [TagOne(v1), TagTwo(v2, v3)]) ==
      Ok(Hoisting([TagsEntry(v1, v2, v3)] + TagOne(v1).fields + TagTwo(v2, v3).fields, [false, false], true))
  {
    var log1 := [TagsEntry(v1, v2, v3)] + TagOne(v1).fields;
    ExampleFirstTag(v1, v2, v3);
    assert Keys(log1) == [SymKey("tags"), SymKey("a")];
    ExampleSecondTag(log1, v2, v3);
    HoistCons(Hoisting([TagsEntry(v1, v2, v3)], [], true), TagOne(v1), [TagTwo(v2, v3)]);
    assert [TagOne(v1)] + [TagTwo(v2, v3)] == [TagOne(v1), TagTwo(v2, v3)];
  }

  /** Deleting a key held only by the first entry leaves the rest. */
  lemma DeleteFirst(f: Field, rest: seq<Field>)
    requires f.key !in Keys(rest)
    ensures Delete([f] + rest, f.key) == rest
  {
    assert ([f] + rest)[1..] == rest;
  }

  /** A `tags` entry that comes first and is emptied is dropped. */
  lemma DropEmptiedFirst(v: Value, rest: seq<Field>)
    requires TagsKey !in Keys(rest)
    ensures DropEmptyTags(Put([Entry(TagsKey, v)] + rest, TagsKey, Arr([]))) == Ok(rest)
  {
    var emptied := [Entry(TagsKey, Arr([]))] + rest;
    assert ([Entry(TagsKey, v)] + rest)[1..] == rest;
    assert Put([Entry(TagsKey, v)] + rest, TagsKey, Arr([])) == emptied;
    DeleteFirst(Entry(TagsKey, Arr([])), rest);
  }

  /**
   * A message whose first entry is an Array of `tags`, all of them hoisted without
   * raising or carrying `:tags`: the record is what they hoist, the message the rest.
   */
  lemma StageAllHoisted(items: seq<Value>, rest: seq<Field>, hoisted: seq<Field>)
    requires TagsKey !in Keys(rest) && TagsKey !in Keys(hoisted)
    requires var st := Hoist(Hoisting([Entry(TagsKey, Arr(items))], [], true), items);
      st.Ok? && st.value.live && st.value.log == [Entry(TagsKey, Arr(items))] + hoisted &&
      Filter(items, st.value.keep) == []
    ensures Stage([], [Entry(TagsKey, Arr(items))] + rest) == Ok(Staged(hoisted, rest))
  {
    var msg := [Entry(TagsKey, Arr(items))] + rest;
    assert Get(msg, TagsKey) == Some(Arr(items));
    assert Put([], TagsKey, Arr(items)) == [Entry(TagsKey, Arr(items))];
    DropEmptiedFirst(Arr(items), hoisted);
    DeleteFirst(Entry(TagsKey, Arr(items)), rest);
  }

  /** Both tags are hoisted, so none is left to filter. */
  lemma FilterNone(t1: Value, t2: Value)
    ensures Filter([t1, t2], [false, false]) == []
  {
    assert [t1, t2][1..] == [t2];
    assert [false, false][1..] == [false];
  }

  /**
   * The record before the message is merged: the two tags' Hashes, in order, with
   * no `tags` left; the message without its `tags`.
   */
  lemma ExampleStage(v1: string, v2: string, v3: string, v4: string, v5: string, v6: string, v7: string, v8: string)
    ensures Stage([], [TagsEntry(v1, v2, v3)] + MsgRest(v4, v5, v6, v7, v8)) ==
      Ok(Staged(TagOne(v1).fields + TagTwo(v2, v3).fields, MsgRest(v4, v5, v6, v7, v8)))
  {
    var items := [TagOne(v1), TagTwo(v2, v3)];
    var hoisted := TagOne(v1).fields + TagTwo(v2, v3).fields;
    assert Entry(TagsKey, Arr(items)) == TagsEntry(v1, v2, v3);
    ExampleHoist(v1, v2, v3);
    assert [TagsEntry(v1, v2, v3)] + TagOne(v1).fields + TagTwo(v2, v3).fields == [TagsEntry(v1, v2, v3)] + hoisted;
    FilterNone(TagOne(v1), TagTwo(v2, v3));
    assert Keys(hoisted) == [SymKey("a"), SymKey("b"), SymKey("c")];
    assert Keys(MsgRest(v4, v5, v6, v7, v8)) == [SymKey("b"), SymKey("a"), SymKey("c")];
    StageAllHoisted(items, MsgRest(v4, v5, v6, v7, v8), hoisted);
  }

  /** `deep_merge!` where both sides hold a Hash under the first key: the two are merged. */
  lemma MergeIntoHash(a: seq<Field>, f: Field, rest: seq<Field>, x: seq<Field>, y: seq<Field>)
    requires Get(a, f.key) == Some(Hash(x)) && f.val == Hash(y)
    ensures DeepMerge(a, [f] + rest) == DeepMerge(Put(a, f.key, Hash(DeepMerge(x, y))), rest)
  {
    assert ([f] + rest)[1..] == rest;
  }

  /** `deep_merge!` where the first key is new or not a Hash on both sides: the value replaces. */
  lemma MergeReplace(a: seq<Field>, f: Field, rest: seq<Field>)
    requires Get(a, f.key).None? || !Get(a, f.key).value.Hash? || !f.val.Hash?
    ensures DeepMerge(a, [f] + rest) == DeepMerge(Put(a, f.key, f.val), rest)
  {
    assert ([f] + rest)[1..] == rest;
  }

  /** Deep-merging one entry into a record of one entry with another key. */
  lemma MergeTwoFresh(f: Field, g: Field)
    requires f.key != g.key
    ensures DeepMerge([f], [g]) == [f, g]
  {
    assert Keys([f]) + Keys([g]) == [f.key, g.key];
    DeepMergeFresh([f], [g]);
    assert [f] + [g] == [f, g];
  }

  /** `{c: v1}` deep-merged with `{c: v5, d: v6}`: the String is replaced, `d` is added. */
  lemma ExampleInnerC(v1: string, v5: string, v6: string)
    ensures DeepMerge([S("c", Str(v1))], [S("c", Str(v5)), S("d", Str(v6))]) == [S("c", Str(v5)), S("d", Str(v6))]
  {
    MergeReplace([S("c", Str(v1))], S("c", Str(v5)), [S("d", Str(v6))]);
    assert [S("c", Str(v5)), S("d", Str(v6))] == [S("c", Str(v5))] + [S("d", Str(v6))];
    assert Put([S("c", Str(v1))], SymKey("c"), Str(v5)) == [S("c", Str(v5))];
    MergeTwoFresh(S("c", Str(v5)), S("d", Str(v6)));
  }

  /** A Hash entry deep-merged into a record holding only a Hash under the same key. */
  lemma MergeIntoOnly(g: Field, f: Field, rest: seq<Field>, x: seq<Field>, y: seq<Field>)
    requires g.key == f.key && g.val == Hash(x) && f.val == Hash(y)
    ensures DeepMerge([g], [f] + rest) == DeepMerge([Entry(f.key, Hash(DeepMerge(x, y)))], rest)
  {
    assert Get([g], f.key) == Some(Hash(x)) by {
      GetAt([], g, []);
      assert [] + [g] + [] == [g];
    }
    assert Put([g], f.key, Hash(DeepMerge(x, y))) == [Entry(f.key, Hash(DeepMerge(x, y)))] by {
      PutAt([], g, [], Hash(DeepMerge(x, y)));
      assert [] + [g] + [] == [g];
      assert [] + [Entry(f.key, Hash(DeepMerge(x, y)))] + [] == [Entry(f.key, Hash(DeepMerge(x, y)))];
    }
    MergeIntoHash([g], f, rest, x, y);
  }

  /** `{b: {c: v1}}` deep-merged with the message's `a`: the message's value wins throughout. */
  lemma ExampleInnerA(v1: string, v5: string, v6: string, v7: string)
    ensures DeepMerge([S("b", Hash([S("c", Str(v1))]))], [S("b", Hash([S("c", Str(v5)), S("d", Str(v6))])), S("c", Hash([S("d", Str(v7))]))]) ==
      [S("b", Hash([S("c", Str(v5)), S("d", Str(v6))])), S("c", Hash([S("d", Str(v7))]))]
  {
    var x := [S("c", Str(v1))];
    var y := [S("c", Str(v5)), S("d", Str(v6))];
    var fb := S("b", Hash(y));
    var fc := S("c", Hash([S("d", Str(v7))]));
    assert DeepMerge([S("b", Hash(x))], [fb, fc]) == DeepMerge([Entry(SymKey("b"), Hash(DeepMerge(x, y)))], [fc]) by {
      assert [fb, fc] == [fb] + [fc];
      MergeIntoOnly(S("b", Hash(x)), fb, [fc], x, y);
    }
    assert Entry(SymKey("b"), Hash(DeepMerge(x, y))) == fb by {
      ExampleInnerC(v1, v5, v6);
    }
    MergeTwoFresh(fb, fc);
  }

  // The record while the message is merged, one entry at a time.
  function Merged1(v1: string, v2: string, v3: string, v4: string): seq<Field> {
    [S("a", Hash([S("b", Hash([S("c", Str(v1))]))])), S("b", Hash([S("a", Str(v2)), S("c", Str(v4))])), S("c", Str(v3))]
  }

  function Merged2(v2: string, v3: string, v4: string, v5: string, v6: string, v7: string): seq<Field> {
    [S("a", Hash([S("b", Hash([S("c", Str(v5)), S("d", Str(v6))])), S("c", Hash([S("d", Str(v7))]))])),
     S("b", Hash([S("a", Str(v2)), S("c", Str(v4))])), S("c", Str(v3))]
  }

  /** The expected record: `{a: {b: {c: v5, d: v6}, c: {d: v7}}, b: {a: v2, c: v4}, c: v8}`. */
  function Expected(v2: string, v4: string, v5: string, v6: string, v7: string, v8: string): seq<Field> {
    [S("a", Hash([S("b", Hash([S("c", Str(v5)), S("d", Str(v6))])), S("c", Hash([S("d", Str(v7))]))])),
     S("b", Hash([S("a", Str(v2)), S("c", Str(v4))])), S("c", Str(v8))]
  }

  /** A Hash entry with new keys only, deep-merged into the second entry of a record. */
  lemma MergeIntoSecond(fa: Field, fb: Field, fc: Field, f: Field, rest: seq<Field>, x: seq<Field>, y: seq<Field>)
    requires fa.key != fb.key && f.key == fb.key && fb.val == Hash(x) && f.val == Hash(y)
    requires Distinct(Keys(x) + Keys(y))
    ensures DeepMerge([fa, fb, fc], [f] + rest) == DeepMerge([fa, Entry(fb.key, Hash(x + y)), fc], rest)
  {
    var fs := [fa, fb, fc];
    assert fs == [fa] + [fb] + [fc];
    assert Get(fs, fb.key) == Some(Hash(x)) by {
      GetAt([fa], fb, [fc]);
    }
    assert DeepMerge(x, y) == x + y by {
      DeepMergeFresh(x, y);
    }
    assert Put(fs, fb.key, Hash(x + y)) == [fa, Entry(fb.key, Hash(x + y)), fc] by {
      PutAt([fa], fb, [fc], Hash(x + y));
      assert [fa] + [Entry(fb.key, Hash(x + y))] + [fc] == [fa, Entry(fb.key, Hash(x + y)), fc];
    }
    MergeIntoHash(fs, f, rest, x, y);
  }

  /** The message's `b` is merged into the second tag's `b`. */
  lemma ExampleMergeB(v1: string, v2: string, v3: string, v4: string, v5: string, v6: string, v7: string, v8: string)
    ensures DeepMerge(TagOne(v1).fields + TagTwo(v2, v3).fields, MsgRest(v4, v5, v6, v7, v8)) ==
      DeepMerge(Merged1(v1, v2, v3, v4), MsgRest(v4, v5, v6, v7, v8)[1..])
  {
    var x := [S("a", Str(v2))];
    var y := [S("c", Str(v4))];
    var fa := TagOne(v1).fields[0];
    var fb := S("b", Hash(x));
    var fc := S("c", Str(v3));
    assert TagOne(v1).fields + TagTwo(v2, v3).fields == [fa, fb, fc];
    var m := MsgRest(v4, v5, v6, v7, v8);
    assert m == [S("b", Hash(y))] + m[1..];
    assert Keys(x) + Keys(y) == [SymKey("a"), SymKey("c")];
    MergeIntoSecond(fa, fb, fc, S("b", Hash(y)), m[1..], x, y);
    Merged1Parts(v1, v2, v3, v4);
  }

  lemma Merged1Parts(v1: string, v2: string, v3: string, v4: string)
    ensures [TagOne(v1).fields[0], Entry(SymKey("b"), Hash([S("a", Str(v2))] + [S("c", Str(v4))])), S("c", Str(v3))] ==
      Merged1(v1, v2, v3, v4)
  {
    assert [S("a", Str(v2))] + [S("c", Str(v4))] == [S("a", Str(v2)), S("c", Str(v4))];
  }

  /** The message's `a` is merged into the first tag's `a`. */
  lemma ExampleMergeA(v1: string, v2: string, v3: string, v4: string, v5: string, v6: string, v7: string, v8: string)
    ensures DeepMerge(Merged1(v1, v2, v3, v4), MsgRest(v4, v5, v6, v7, v8)[1..]) ==
      DeepMerge(Merged2(v2, v3, v4, v5, v6, v7), [S("c", Str(v8))])
  {
    var a1 := Merged1(v1, v2, v3, v4);
    var x := [S("b", Hash([S("c", Str(v1))]))];
    var y := [S("b", Hash([S("c", Str(v5)), S("d", Str(v6))])), S("c", Hash([S("d", Str(v7))]))];
    var f := S("a", Hash(y));
    assert a1 == [] + [a1[0]] + a1[1..];
    assert Get(a1, SymKey("a")) == Some(Hash(x)) by {
      GetAt([], a1[0], a1[1..]);
    }
    assert DeepMerge(x, y) == y by {
      ExampleInnerA(v1, v5, v6, v7);
    }
    assert Put(a1, SymKey("a"), Hash(y)) == Merged2(v2, v3, v4, v5, v6, v7) by {
      PutAt([], a1[0], a1[1..], Hash(y));
      assert [] + [Entry(SymKey("a"), Hash(y))] + a1[1..] == Merged2(v2, v3, v4, v5, v6, v7);
    }
    assert MsgRest(v4, v5, v6, v7, v8)[1..] == [f] + [S("c", Str(v8))];
    MergeIntoHash(a1, f, [S("c", Str(v8))], x, y);
  }

  /** The message's String `c` replaces the second tag's. */
  lemma ExampleMergeC(v2: string, v3: string, v4: string, v5: string, v6: string, v7: string, v8: string)
    ensures DeepMerge(Merged2(v2, v3, v4, v5, v6, v7), [S("c", Str(v8))]) == Expected(v2, v4, v5, v6, v7, v8)
  {
    var a2 := Merged2(v2, v3, v4, v5, v6, v7);
    assert a2 == a2[..2] + [a2[2]] + [];
    assert forall g :: g in a2[..2] ==> g.key != SymKey("c");
    MergeReplace(a2, S("c", Str(v8)), []);
    assert [S("c", Str(v8))] + [] == [S("c", Str(v8))];
    PutAt(a2[..2], a2[2], [], Str(v8));
    assert a2[..2] + [Entry(SymKey("c"), Str(v8))] + [] == Expected(v2, v4, v5, v6, v7, v8);
  }

  /** The message deep-merged over the hoisted tags. */
  lemma ExampleMerge(v1: string, v2: string, v3: string, v4: string, v5: string, v6: string, v7: string, v8: string)
    ensures DeepMerge(TagOne(v1).fields + TagTwo(v2, v3).fields, MsgRest(v4, v5, v6, v7, v8)) == Expected(v2, v4, v5, v6, v7, v8)
  {
    ExampleMergeB(v1, v2, v3, v4, v5, v6, v7, v8);
    ExampleMergeA(v1, v2, v3, v4, v5, v6, v7, v8);
    ExampleMergeC(v2, v3, v4, v5, v6, v7, v8);
  }

  /**
   * A formatter without metadata, given the tags `{a: {b: {c: v1}}}` and
   * `{b: {a: v2}, c: v3}` and a message that overrides some of their keys: the
   * tags are hoisted into the record in order, `tags` disappears, and the message
   * wins on every key both define, deep inside nested Hashes too.
   */
  lemma ExampleRecord(severity: Value, time: Value, progname: Value,
                      v1: string, v2: string, v3: string, v4: string, v5: string, v6: string, v7: string, v8: string)
    ensures Record(Quiet, severity, time, progname, Hash([TagsEntry(v1, v2, v3)] + MsgRest(v4, v5, v6, v7, v8))) ==
      Ok(Expected(v2, v4, v5, v6, v7, v8))
  {
    assert Meta(Quiet, severity, time, progname) == [];
    ExampleStage(v1, v2, v3, v4, v5, v6, v7, v8);
    ExampleMerge(v1, v2, v3, v4, v5, v6, v7, v8);
  }
}
