/**
 * What the tagged logger promises: the message reaches the formatter unchanged when
 * there are no tags, wrapped with a copy of them otherwise; tags pushed by a block
 * are seen only inside it; every log call of a block runs once.
 */
module TaggedLoggingProps {
  import opened Wrappers
  import opened Values
  import opened TagSyntax
  import opened JsonFormatter
  import opened JsonFormatterProps
  import opened TaggedLogging

  // ---------------------------------------------------------------------------
  // `Formatter#call`

  /** With tags, a message that is not a Hash becomes `{tags: [...], message: msg}`. */
  lemma WrapPlain(tags: seq<Value>, msg: Value)
    requires tags != [] && !msg.Hash?
    ensures Wrap(tags, msg) == Hash([Entry(TagsKey, Arr(tags)), Entry(MessageKey, msg)])
  {
    var json := Put([], TagsKey, Arr(tags));
    assert json == [Entry(TagsKey, Arr(tags))];
    PutNew(json, MessageKey, msg);
  }

  /**
   * With tags, a Hash message is merged over `{tags: [...]}`: `tags` comes first, and
   * the message's keys, its own `tags` included, win.
   */
  lemma WrapHash(tags: seq<Value>, msg: Value)
    requires tags != [] && msg.Hash? && Distinct(Keys(msg.fields))
    ensures var r := Wrap(tags, msg).fields;
      Keys(r) == [TagsKey] + NewKeys([TagsKey], Keys(msg.fields)) &&
      forall k :: Get(r, k) == if k in Keys(msg.fields) then Get(msg.fields, k)
                               else if k == TagsKey then Some(Arr(tags)) else None
  {
    var json := Put([], TagsKey, Arr(tags));
    assert json == [Entry(TagsKey, Arr(tags))];
    assert Keys(json) == [TagsKey];
    MergeKeys(json, msg.fields);
    forall k ensures Get(Merge(json, msg.fields), k) == if k in Keys(msg.fields) then Get(msg.fields, k)
                                                        else if k == TagsKey then Some(Arr(tags)) else None {
      MergeGet(json, msg.fields, k);
    }
  }

  /** A tag that `JSONFormatter` leaves under `tags`: not a Hash, and not a String of pairs. */
  ghost predicate Plain(t: Value) {
    !t.Hash? && !(t.Str? && Matches(t.s))
  }

  lemma {:induction false} OpaqueAll(tags: seq<Value>)
    requires forall i :: 0 <= i < |tags| ==> Plain(tags[i])
    ensures Opaque(tags) == tags
    decreases |tags|
  {
    if tags != [] {
      HashifyOpaque(tags[0]);
      assert forall i :: 0 <= i < |tags| - 1 ==> tags[1..][i] == tags[i + 1];
      OpaqueAll(tags[1..]);
    }
  }

  /** Plain tags are neither hoisted nor raise, and none carries `:tags`. */
  lemma PlainTags(tags: seq<Value>)
    requires forall i :: 0 <= i < |tags| ==> Plain(tags[i])
    ensures forall t :: t in tags ==> Hashify(t).Ok? && !Carries(t) && !Hoisted(t)
  {
    forall t | t in tags
      ensures Hashify(t).Ok? && !Carries(t) && !Hoisted(t)
    {
      var i :| 0 <= i < |tags| && tags[i] == t;
      HashifyOpaque(t);
    }
  }

  /** Staging `{tags: [...], message: msg}` with plain tags keeps the tags as they are. */
  lemma PlainStageTags(meta: seq<Field>, tags: seq<Value>, msg: Value)
    requires forall i :: 0 <= i < |tags| ==> Plain(tags[i])
    requires tags != []
    ensures var fs := [Entry(TagsKey, Arr(tags)), Entry(MessageKey, msg)];
      Stage(meta, fs).Ok? && Get(Stage(meta, fs).value.log, TagsKey) == Some(Arr(tags))
  {
    var fs := [Entry(TagsKey, Arr(tags)), Entry(MessageKey, msg)];
    assert Get(fs, TagsKey) == Some(Arr(tags));
    PlainTags(tags);
    TagsOutcome(meta, fs);
    OpaqueAll(tags);
  }

  /** ... and leaves every other key of the metadata, in order, with `tags` after it. */
  lemma PlainStageLog(meta: seq<Field>, tags: seq<Value>, msg: Value)
    requires forall i :: 0 <= i < |tags| ==> Plain(tags[i])
    requires tags != [] && TagsKey !in Keys(meta)
    ensures var fs := [Entry(TagsKey, Arr(tags)), Entry(MessageKey, msg)];
      Stage(meta, fs).Ok? && Keys(meta) + [TagsKey] <= Keys(Stage(meta, fs).value.log) &&
      forall k :: k != TagsKey ==> Get(Stage(meta, fs).value.log, k) == Get(meta, k)
  {
    var fs := [Entry(TagsKey, Arr(tags)), Entry(MessageKey, msg)];
    PlainStageTags(meta, tags, msg);
    var log := Stage(meta, fs).value.log;
    assert Keys(meta) + [TagsKey] <= Keys(log) by {
      GetNone(log, TagsKey);
      StageOrder(meta, fs);
    }
    assert Get(fs, TagsKey) == Some(Arr(tags));
    PlainTags(tags);
    forall k | k != TagsKey
      ensures Get(log, k) == Get(meta, k)
    {
      StageElsewhere(meta, fs, k);
    }
  }

  /** ... and the message part is the rest of the Hash. */
  lemma PlainStageMessage(meta: seq<Field>, tags: seq<Value>, msg: Value)
    requires forall i :: 0 <= i < |tags| ==> Plain(tags[i])
    requires tags != []
    ensures var fs := [Entry(TagsKey, Arr(tags)), Entry(MessageKey, msg)];
      Stage(meta, fs).Ok? && Stage(meta, fs).value.message == [Entry(MessageKey, msg)]
  {
    var fs := [Entry(TagsKey, Arr(tags)), Entry(MessageKey, msg)];
    PlainStageTags(meta, tags, msg);
    assert Get(fs, TagsKey).Some?;
    assert fs[1..] == [Entry(MessageKey, msg)];
    assert Delete(fs, TagsKey) == Delete(fs[1..], TagsKey);
  }

  /**
   * Through `JSONFormatter`, a tagged plain message gives the metadata, then `tags`
   * with the tags in push order, then `message`, when no tag is a Hash or a String
   * of pairs.
   */
  lemma TaggedPlainRecord(c: Config, severity: Value, time: Value, progname: Value, tags: seq<Value>, msg: Value)
    requires tags != [] && !msg.Hash?
    requires forall i :: 0 <= i < |tags| ==> Plain(tags[i])
    ensures Record(c, severity, time, progname, Wrap(tags, msg)).Ok?
    ensures var r := Record(c, severity, time, progname, Wrap(tags, msg)).value;
      var meta := Meta(c, severity, time, progname);
      Keys(meta) + [TagsKey] <= Keys(r) &&
      forall k :: Get(r, k) == if k == TagsKey then Some(Arr(tags)) else if k == MessageKey then Some(msg) else Get(meta, k)
  {
    var meta := Meta(c, severity, time, progname);
    MetaLacks(c, severity, time, progname);
    WrapPlain(tags, msg);
    PlainStageLog(meta, tags, msg);
    PlainStageTags(meta, tags, msg);
    PlainStageMessage(meta, tags, msg);
    var s := Stage(meta, Wrap(tags, msg).fields).value;
    var r := DeepMerge(s.log, s.message);
    assert Record(c, severity, time, progname, Wrap(tags, msg)) == Ok(r);
    forall k ensures Get(r, k) == if k == TagsKey then Some(Arr(tags)) else if k == MessageKey then Some(msg) else Get(meta, k) {
      DeepMergeGet(s.log, s.message, k);
      if k == MessageKey {
        GetNone(meta, MessageKey);
      }
    }
    DeepMergeKeepsOrder(s.log, s.message);
    PrefixTrans(Keys(meta) + [TagsKey], Keys(s.log), Keys(r));
  }

  // ---------------------------------------------------------------------------
  // What `call` leaves of the caller's message

  /**
   * A `JSONFormatter` handed the message itself, because there are no tags to wrap it
   * with, changes it exactly when it is a Hash with a collection under `:tags`.
   */
  lemma HandedDirect(c: Config, mode: Mode, tags: seq<Value>, msg: Value)
    requires mode == Untagged || tags == []
    ensures Handed(JsonBase(c), mode, tags, msg) == msg <==> Inert(msg)
  {
    if !Inert(msg) {
      DeleteGet(msg.fields, TagsKey, TagsKey);
    }
  }

  /**
   * What a `JSONFormatter` leaves of a Hash message with a collection under `:tags`:
   * every other key keeps its value; `:tags` is gone when the formatter was handed the
   * message itself, holds the pruned collection when it was handed the JSON wrapper,
   * and is untouched when ActiveSupport's tags made a String of the message.
   */
  lemma HandedFields(c: Config, mode: Mode, tags: seq<Value>, msg: Value, k: Key)
    requires !Inert(msg)
    ensures var r := Handed(JsonBase(c), mode, tags, msg);
      var t := Get(msg.fields, TagsKey).value;
      r.Hash? &&
      Get(r.fields, k) == if k != TagsKey then Get(msg.fields, k)
        else if mode == Untagged || tags == [] then None
        else if mode == JsonTags then Some(Pruned(t))
        else Some(t)
  {
    var t := Get(msg.fields, TagsKey).value;
    DeleteGet(msg.fields, TagsKey, k);
    PutGet(msg.fields, TagsKey, Pruned(t), k);
  }

  // ---------------------------------------------------------------------------
  // Blocks

  /** A block that raises nothing writes one line per log call, nested ones included. */
  lemma {:induction false} PlayCount(base: Base, mode: Mode, stack: seq<Value>, actions: seq<Action>)
    requires Play(base, mode, stack, actions).error.None?
    ensures |Play(base, mode, stack, actions).lines| == LogCount(actions)
    decreases actions, 1
  {
    if actions != [] {
      assert actions[0] in actions;
      StepCount(base, mode, stack, actions[0]);
      PlayCount(base, mode, stack, actions[1..]);
    }
  }

  lemma {:induction false} StepCount(base: Base, mode: Mode, stack: seq<Value>, a: Action)
    requires Step(base, mode, stack, a).error.None?
    ensures |Step(base, mode, stack, a).lines| == LogCount([a])
    decreases a, 0
  {
    assert [a][1..] == [];
    match a
    case Log(_, _, _, _) =>
    case Scope(tags, body) =>
      PlayCount(base, mode, if mode == Untagged then stack else stack + tags, body);
  }

  /**
   * `tagged('foo') { info('bar') }; info('baz')` through the tests' text formatter:
   * the line logged inside the block carries the tag, the one after it does not.
   */
  lemma BlockScopesTags(severity: Value, time: Value, progname: Value, foo: string, bar: string, baz: string)
    ensures Play(TextBase, JsonTags, [], [Scope([Str(foo)], [Log(severity, time, progname, Str(bar))]), Log(severity, time, progname, Str(baz))]) ==
      Outcome([Render(Hash([Entry(TagsKey, Arr([Str(foo)])), Entry(MessageKey, Str(bar))])) + "\n", baz + "\n"], None)
  {
    var inner := [Log(severity, time, progname, Str(bar))];
    var after := [Log(severity, time, progname, Str(baz))];
    var block := Scope([Str(foo)], inner);
    WrapPlain([Str(foo)], Str(bar));
    var wrapped := Wrap([Str(foo)], Str(bar));
    assert wrapped == Hash([Entry(TagsKey, Arr([Str(foo)])), Entry(MessageKey, Str(bar))]);
    assert [] + [Str(foo)] == [Str(foo)];
    TextLog([Str(foo)], severity, time, progname, Str(bar));
    TextLog([], severity, time, progname, Str(baz));
    PlaySingle(TextBase, JsonTags, [Str(foo)], inner[0]);
    PlaySingle(TextBase, JsonTags, [], block);
    PlaySingle(TextBase, JsonTags, [], after[0]);
    PlayAppend(TextBase, JsonTags, [], [block], after);
  }

  /** A log call through the tests' text formatter extended for JSON tags writes the wrapped message's text. */
  lemma TextLog(stack: seq<Value>, severity: Value, time: Value, progname: Value, msg: Value)
    ensures Step(TextBase, JsonTags, stack, Log(severity, time, progname, msg)) == Outcome([Text(Wrap(stack, msg)) + "\n"], None)
  {
  }

  /** A script of one step does what that step does. */
  lemma PlaySingle(base: Base, mode: Mode, stack: seq<Value>, a: Action)
    ensures Play(base, mode, stack, [a]) == Step(base, mode, stack, a)
  {
    assert [a][0] == a && [a][1..] == [];
    var first := Step(base, mode, stack, a);
    if first.error.None? {
      assert first.lines + [] == first.lines;
    }
  }

  /**
   * Running two scripts one after the other: the second starts only if the first
   * raised nothing, and its lines follow the first's.
   */
  lemma {:induction false} PlayAppend(base: Base, mode: Mode, stack: seq<Value>, a: seq<Action>, b: seq<Action>)
    ensures var pa := Play(base, mode, stack, a);
      Play(base, mode, stack, a + b) ==
        if pa.error.Some? then pa
        else Outcome(pa.lines + Play(base, mode, stack, b).lines, Play(base, mode, stack, b).error)
    decreases a
  {
    if a == [] {
      assert a + b == b;
    } else {
      assert (a + b)[0] == a[0] && (a + b)[1..] == a[1..] + b;
      var first := PlayNext(base, mode, stack, a);
      var again := PlayNext(base, mode, stack, a + b);
      PlayAppend(base, mode, stack, a[1..], b);
      if first.error.None? {
        var rest := Play(base, mode, stack, a[1..]);
        LinesAssoc(first.lines, rest.lines, Play(base, mode, stack, b).lines);
      }
    }
  }

  /** The first step of a script, and the rest of the script after it. */
  lemma PlayNext(base: Base, mode: Mode, stack: seq<Value>, actions: seq<Action>) returns (first: Outcome)
    requires actions != []
    ensures first == Step(base, mode, stack, actions[0])
    ensures var rest := Play(base, mode, stack, actions[1..]);
      Play(base, mode, stack, actions) == if first.error.Some? then first else Outcome(first.lines + rest.lines, rest.error)
  {
    first := Step(base, mode, stack, actions[0]);
  }

  /** `tagged(a) { tagged(b) { ... } }` does what `tagged(a, b) { ... }` does. */
  lemma NestedScopes(base: Base, mode: Mode, stack: seq<Value>, outer: seq<Value>, inner: seq<Value>, body: seq<Action>)
    ensures Step(base, mode, stack, Scope(outer, [Scope(inner, body)])) == Step(base, mode, stack, Scope(outer + inner, body))
  {
    var s1 := if mode == Untagged then stack else stack + outer;
    PlaySingle(base, mode, s1, Scope(inner, body));
    if mode != Untagged {
      assert s1 + inner == stack + (outer + inner);
    }
  }

  /**
   * `tagged('foo').tagged('bar').info('baz')` through the tests' text formatter: the
   * derived logger's tags, in the order they were added, wrap the message.
   */
  lemma DerivedTagsWrap(severity: Value, time: Value, progname: Value, foo: string, bar: string, baz: string)
    ensures Line(TextBase, severity, time, progname, Decorate(JsonTags, [] + [Str(foo)] + [Str(bar)], Str(baz))) ==
      Ok(Render(Hash([Entry(TagsKey, Arr([Str(foo), Str(bar)])), Entry(MessageKey, Str(baz))])) + "\n")
  {
    assert [] + [Str(foo)] + [Str(bar)] == [Str(foo), Str(bar)];
    WrapPlain([Str(foo), Str(bar)], Str(baz));
  }
}
