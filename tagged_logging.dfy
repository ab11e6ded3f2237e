/**
 * The tagged logger around the JSON formatter: `JSONTaggedLogging::Formatter#call`,
 * which hands the formatter a message wrapped with the current tags, the tag stack
 * it reads, the two forms of `tagged`, and `JSONTaggedLogging.new`.
 *
 * A block given to `tagged` is arbitrary Ruby code; here it is a script of log
 * calls and nested `tagged` blocks (`Action`), so that what a block does to the
 * output can be stated.
 */
module TaggedLogging {
  import opened Wrappers
  import opened Values
  import opened JsonFormatter

  // ---------------------------------------------------------------------------
  // `Formatter#call`

  /** The message the formatter underneath receives, given the current tags. */
  function Wrap(tags: seq<Value>, msg: Value): (r: Value)
    ensures tags == [] ==> r == msg
    ensures tags != [] ==> r.Hash? && |r.fields| > 0 && r.fields[0].key == TagsKey
  {
    if tags == [] then msg
    else
      var json := Put([], TagsKey, Arr(tags));
      if msg.Hash? then
        MergeKeys(json, msg.fields);
        Hash(Merge(json, msg.fields))
      else Hash(Put(json, MessageKey, msg))
  }

  /**
   * Whether a formatter was extended for tags, and how: not at all (a plain
   * `Logger`), by ActiveSupport's `TaggedLogging::Formatter` alone, which prefixes
   * `[tag] ` text, or also by `JSONTaggedLogging::Formatter`, which wraps.
   */
  datatype Mode = Untagged | TextTags | JsonTags

  /** A Ruby value as `to_s` would show it; a String is its own text. */
  function Text(v: Value): string {
    if v.Str? then v.s else Render(v)
  }

  /** `[tag1] [tag2] ` in front of the message, as ActiveSupport's tag stack formats it. */
  function Prefix(tags: seq<Value>): string {
    if tags == [] then "" else "[" + Text(tags[0]) + "] " + Prefix(tags[1..])
  }

  /** What reaches the formatter underneath, given the formatter's mode and current tags. */
  function Decorate(mode: Mode, tags: seq<Value>, msg: Value): Value {
    match mode
    case Untagged => msg
    case TextTags => if tags == [] then msg else Str(Prefix(tags) + Text(msg))
    case JsonTags => Wrap(tags, msg)
  }

  /**
   * The formatter underneath: a `JSONFormatter`, or the plain text formatter the
   * tests install, which writes a String as itself and anything else as its JSON.
   */
  datatype Base = JsonBase(config: Config) | TextBase

  /** The line the formatter underneath returns for one message. */
  function Line(base: Base, severity: Value, time: Value, progname: Value, msg: Value): Result<string, RubyError> {
    match base
    case JsonBase(c) => Format(c, severity, time, progname, msg)
    case TextBase => Ok(Text(msg) + "\n")
  }

  /**
   * The caller's message once a formatter with `base`, `mode` and the current tags
   * `tags` has returned a line for it. A `JSONFormatter` handed the message itself
   * takes the collection under `:tags` out of it; handed the Hash that wraps it, whose
   * `:tags` is that very collection, it removes the hoisted entries from the collection
   * in place. A formatter that turns the message into text leaves it as it was.
   */
  function Handed(base: Base, mode: Mode, tags: seq<Value>, msg: Value): Value {
    if base.TextBase? || !msg.Hash? || !TakesTags(msg.fields) then msg
    else if mode == Untagged || tags == [] then Remains(msg)
    else if mode == JsonTags then Hash(Put(msg.fields, TagsKey, Pruned(Get(msg.fields, TagsKey).value)))
    else msg
  }

  /** A message no formatter changes: anything but a Hash with a collection under `:tags`. */
  predicate Inert(msg: Value) {
    !(msg.Hash? && TakesTags(msg.fields))
  }

  // ---------------------------------------------------------------------------
  // What a block does

  /** One step of a block: a log call, or a nested `tagged` block. */
  datatype Action =
    | Log(severity: Value, time: Value, progname: Value, msg: Value)
    | Scope(tags: seq<Value>, body: seq<Action>)

  /** The lines a script writes, and the exception that ended it, if any. */
  datatype Outcome = Outcome(lines: seq<string>, error: Option<RubyError>)

  /**
   * A script run by one logger whose formatter has `base`, `mode` and the tag stack
   * `stack`: each log call writes one line, and a nested block sees its tags pushed
   * for its own extent only. An exception stops the script.
   */
  function Play(base: Base, mode: Mode, stack: seq<Value>, actions: seq<Action>): Outcome
    decreases actions, 1
  {
    if actions == [] then Outcome([], None)
    else
      assert actions[0] in actions;
      var first := Step(base, mode, stack, actions[0]);
      if first.error.Some? then first
      else
        var rest := Play(base, mode, stack, actions[1..]);
        Outcome(first.lines + rest.lines, rest.error)
  }

  /** One step of a script. */
  function Step(base: Base, mode: Mode, stack: seq<Value>, a: Action): Outcome
    decreases a, 0
  {
    match a
    case Log(severity, time, progname, msg) =>
      var line := Line(base, severity, time, progname, Decorate(mode, stack, msg));
      if line.Ok? then Outcome([line.value], None) else Outcome([], Some(line.error))
    case Scope(tags, body) =>
      Play(base, mode, if mode == Untagged then stack else stack + tags, body)
  }

  /** Lines written one batch after another. */
  lemma LinesAssoc(a: seq<string>, b: seq<string>, c: seq<string>)
    ensures (a + b) + c == a + (b + c)
  {
  }

  /** The number of log calls a script makes, counting those inside nested blocks. */
  function LogCount(actions: seq<Action>): nat
    decreases actions
  {
    if actions == [] then 0
    else
      (match actions[0]
       case Log(_, _, _, _) => 1
       case Scope(_, body) => assert actions[0] in actions; LogCount(body))
      + LogCount(actions[1..])
  }

  /** Every log call of a script, nested blocks included, passes a message no formatter changes. */
  predicate InertScript(actions: seq<Action>)
    decreases actions, 1
  {
    if actions == [] then true
    else
      assert actions[0] in actions;
      InertStep(actions[0]) && InertScript(actions[1..])
  }

  predicate InertStep(a: Action)
    decreases a, 0
  {
    match a
    case Log(_, _, _, msg) => Inert(msg)
    case Scope(_, body) => InertScript(body)
  }

  // ---------------------------------------------------------------------------
  // The objects

  /** An output device (a `StringIO`): the lines written so far. Clones of a logger share it. */
  class Device {
    var lines: seq<string>

    constructor()
      ensures lines == []
    {
      lines := [];
    }

    method Write(line: string)
      modifies this
      ensures lines == old(lines) + [line]
    {
      lines := lines + [line];
    }
  }

  /** A formatter object and its tag stack (`current_tags`). */
  class TagFormatter {
    const base: Base
    const mode: Mode
    var tags: seq<Value>

    constructor(base: Base, mode: Mode, tags: seq<Value>)
      ensures this.base == base && this.mode == mode && this.tags == tags
    {
      this.base := base;
      this.mode := mode;
      this.tags := tags;
    }

    /** `call(severity, timestamp, progname, msg)`. */
    function Call(severity: Value, time: Value, progname: Value, msg: Value): Result<string, RubyError>
      reads this
    {
      Line(base, severity, time, progname, Decorate(mode, tags, msg))
    }

    /** `push_tags(*tags)`. */
    method PushTags(pushed: seq<Value>)
      modifies this
      ensures tags == old(tags) + pushed
    {
      tags := tags + pushed;
    }

    /** `pop_tags(count)`: the last `count` tags go, or all of them if there are fewer. */
    method PopTags(count: nat)
      modifies this
      ensures tags == old(tags)[..if count <= |old(tags)| then |old(tags)| - count else 0]
    {
      tags := tags[..if count <= |tags| then |tags| - count else 0];
    }
  }

  /** A logger: the device it writes to and its formatter. */
  class Logger {
    const device: Device
    const formatter: TagFormatter

    constructor(device: Device, formatter: TagFormatter)
      ensures this.device == device && this.formatter == formatter
    {
      this.device := device;
      this.formatter := formatter;
    }

    /** `respond_to?(:tagged)`: the logger was made a tagged logger. */
    predicate Capable() {
      formatter.mode != Untagged
    }

    /**
     * A log call: the formatted line goes to the device, or the formatter's exception
     * propagates. `rest` is what the formatter left of the caller's message.
     */
    method Add(severity: Value, time: Value, progname: Value, msg: Value) returns (error: Option<RubyError>, rest: Value)
      modifies device
      ensures var line := formatter.Call(severity, time, progname, msg);
        error == (if line.Ok? then None else Some(line.error)) &&
        device.lines == old(device.lines) + (if line.Ok? then [line.value] else [])
      ensures error.None? ==> rest == Handed(formatter.base, formatter.mode, formatter.tags, msg)
    {
      var line := formatter.Call(severity, time, progname, msg);
      rest := Handed(formatter.base, formatter.mode, formatter.tags, msg);
      if line.Ok? {
        device.Write(line.value);
        error := None;
      } else {
        error := Some(line.error);
      }
    }

    /** A script run by this logger, each nested block through `tagged` with a block. */
    method Run(actions: seq<Action>) returns (error: Option<RubyError>)
      requires Capable()
      modifies device, formatter
      ensures var out := Play(formatter.base, formatter.mode, old(formatter.tags), actions);
        error == out.error && device.lines == old(device.lines) + out.lines
      ensures formatter.tags == old(formatter.tags)
      decreases actions, 0
    {
      if actions == [] {
        return None;
      }
      assert actions[0] in actions;
      ghost var first := Step(formatter.base, formatter.mode, formatter.tags, actions[0]);
      error := Perform(actions[0]);
      if error.None? {
        ghost var rest := Play(formatter.base, formatter.mode, formatter.tags, actions[1..]);
        error := Run(actions[1..]);
        LinesAssoc(old(device.lines), first.lines, rest.lines);
      }
    }

    /** One step of a script: a log call, or a nested block through `tagged`. */
    method Perform(a: Action) returns (error: Option<RubyError>)
      requires Capable()
      modifies device, formatter
      ensures var out := Step(formatter.base, formatter.mode, old(formatter.tags), a);
        error == out.error && device.lines == old(device.lines) + out.lines
      ensures formatter.tags == old(formatter.tags)
      decreases a, 2
    {
      match a {
        case Log(severity, time, progname, msg) =>
          var rest;
          error, rest := Add(severity, time, progname, msg);
        case Scope(tags, body) =>
          error := Tagged(tags, body);
      }
    }

    /** `tagged(*tags) { ... }`: the tags are pushed for the block's extent and popped on every exit. */
    method Tagged(tags: seq<Value>, body: seq<Action>) returns (error: Option<RubyError>)
      requires Capable()
      modifies device, formatter
      ensures var out := Play(formatter.base, formatter.mode, old(formatter.tags) + tags, body);
        error == out.error && device.lines == old(device.lines) + out.lines
      ensures formatter.tags == old(formatter.tags)
      decreases body, 1
    {
      formatter.PushTags(tags);
      error := Run(body);
      formatter.PopTags(|tags|);
    }

    /** `tagged(*tags)` without a block: a new logger on the same device, with its own formatter. */
    method Derive(tags: seq<Value>) returns (l: Logger)
      requires Capable()
      ensures fresh(l) && fresh(l.formatter) && l.device == device
      ensures l.formatter.base == formatter.base && l.formatter.mode == formatter.mode
      ensures l.formatter.tags == formatter.tags + tags
    {
      var f := new TagFormatter(formatter.base, formatter.mode, formatter.tags + tags);
      l := new Logger(device, f);
    }
  }

  /**
   * `JSONTaggedLogging.new(logger)` for a logger writing to `device` whose formatter
   * slot holds `formatter`: the clone gets a `JSONFormatter` only when the slot is
   * empty, and a fresh formatter object extended for JSON tags, with no tags yet.
   */
  method New(device: Device, formatter: Option<Base>) returns (l: Logger)
    ensures fresh(l) && fresh(l.formatter) && l.device == device
    ensures l.formatter.base == if formatter.Some? then formatter.value else JsonBase(Init(true, None, false, false))
    ensures l.formatter.mode == JsonTags && l.formatter.tags == []
  {
    var base := if formatter.Some? then formatter.value else JsonBase(Init(true, None, false, false));
    var f := new TagFormatter(base, JsonTags, []);
    l := new Logger(device, f);
  }
}
