/**
 * `JSONTaggedLogging::TaggedBroadcastLogger`: an ActiveSupport broadcast logger whose
 * `tagged` tags every logger it broadcasts to that responds to `tagged`, either for
 * the extent of a block or in a new broadcast logger over derived loggers.
 *
 * The loggers a broadcast logger holds write to pairwise different devices through
 * pairwise different formatter objects (`Valid`), so that what each of them writes
 * can be stated apart from the others.
 */
module TaggedBroadcast {
  import opened Wrappers
  import opened Values
  import opened TaggedLogging

  // ---------------------------------------------------------------------------
  // What a broadcast does

  /** What one logger of a broadcast formats with: its formatter's base, mode and tags. */
  datatype View = View(base: Base, mode: Mode, tags: seq<Value>)

  /** The lines a script writes to each logger's device, and the exception that ended it. */
  datatype Spread = Spread(lines: seq<seq<string>>, error: Option<RubyError>)

  /** Nothing written to any of `n` devices. */
  function Empties(n: nat): (r: seq<seq<string>>)
    ensures |r| == n && forall i :: 0 <= i < n ==> r[i] == []
  {
    seq(n, _ => [])
  }

  /** Device by device, the lines of `b` after those of `a`. */
  function Concat(a: seq<seq<string>>, b: seq<seq<string>>): (r: seq<seq<string>>)
    requires |a| == |b|
    ensures |r| == |a| && forall i :: 0 <= i < |a| ==> r[i] == a[i] + b[i]
  {
    seq(|a|, i requires 0 <= i < |a| => a[i] + b[i])
  }

  /** One logger once `tagged(*tags)` has reached it: only a logger that responds to `tagged` takes the tags. */
  function Pushed(v: View, tags: seq<Value>): View {
    if v.mode == Untagged then v else v.(tags := v.tags + tags)
  }

  /** Every logger of a broadcast once `tagged(*tags)` has reached it. */
  function Push(views: seq<View>, tags: seq<Value>): (r: seq<View>)
    ensures |r| == |views|
    ensures forall i :: 0 <= i < |views| ==>
      r[i].base == views[i].base && r[i].mode == views[i].mode &&
      r[i].tags == if views[i].mode == Untagged then views[i].tags else views[i].tags + tags
  {
    if views == [] then [] else [Pushed(views[0], tags)] + Push(views[1..], tags)
  }

  /** What the formatter of a logger that formats with `v` returns for one log call. */
  function Respond(v: View, severity: Value, time: Value, progname: Value, msg: Value): Result<string, RubyError> {
    Line(v.base, severity, time, progname, Decorate(v.mode, v.tags, msg))
  }

  /**
   * What each logger's formatter returns for one log call on `msg`. Every logger is
   * handed the caller's object, as the formatters of the loggers before it have left it.
   */
  function Outcomes(views: seq<View>, severity: Value, time: Value, progname: Value, msg: Value): (r: seq<Result<string, RubyError>>)
    ensures |r| == |views|
  {
    if views == [] then []
    else
      var v := views[0];
      [Respond(v, severity, time, progname, msg)] + Outcomes(views[1..], severity, time, progname, Handed(v.base, v.mode, v.tags, msg))
  }

  /**
   * `outs[k]` is what logger `k`'s formatter returns for `msgs[k]`, the message as it
   * reaches logger `k`, and each logger is handed what the formatter before it left.
   */
  ghost predicate Threaded(views: seq<View>, severity: Value, time: Value, progname: Value, msgs: seq<Value>, outs: seq<Result<string, RubyError>>) {
    |msgs| == |outs| == |views| &&
    (forall k {:trigger Respond(views[k], severity, time, progname, msgs[k])} :: 0 <= k < |views| ==>
      outs[k] == Respond(views[k], severity, time, progname, msgs[k])) &&
    (forall k {:trigger Handed(views[k].base, views[k].mode, views[k].tags, msgs[k])} :: 0 <= k < |views| - 1 ==>
      msgs[k + 1] == Handed(views[k].base, views[k].mode, views[k].tags, msgs[k]))
  }

  /** The outcomes of a log call on `msg` are threaded through the messages `msgs`, which start at `msg`. */
  lemma {:induction false} Threads(views: seq<View>, severity: Value, time: Value, progname: Value, msg: Value)
    returns (msgs: seq<Value>)
    ensures Threaded(views, severity, time, progname, msgs, Outcomes(views, severity, time, progname, msg))
    ensures |views| > 0 ==> msgs[0] == msg
    decreases |views|
  {
    if views == [] {
      return [];
    }
    var v := views[0];
    var next := Handed(v.base, v.mode, v.tags, msg);
    var tail := Threads(views[1..], severity, time, progname, next);
    msgs := [msg] + tail;
    ThreadsCons(views, severity, time, progname, msg, tail);
  }

  /** One more logger in front of a threaded log call. */
  lemma ThreadsCons(views: seq<View>, severity: Value, time: Value, progname: Value, msg: Value, tail: seq<Value>)
    requires views != []
    requires var v := views[0];
      var next := Handed(v.base, v.mode, v.tags, msg);
      Threaded(views[1..], severity, time, progname, tail, Outcomes(views[1..], severity, time, progname, next)) &&
      (|views| > 1 ==> tail[0] == next)
    ensures Threaded(views, severity, time, progname, [msg] + tail, Outcomes(views, severity, time, progname, msg))
  {
    var v := views[0];
    var next := Handed(v.base, v.mode, v.tags, msg);
    var msgs := [msg] + tail;
    var outs := Outcomes(views, severity, time, progname, msg);
    var later := Outcomes(views[1..], severity, time, progname, next);
    assert outs == [Respond(v, severity, time, progname, msg)] + later;
    forall k | 0 <= k < |views|
      ensures outs[k] == Respond(views[k], severity, time, progname, msgs[k])
    {
      if k > 0 {
        assert views[1..][k - 1] == views[k] && tail[k - 1] == msgs[k];
        assert later[k - 1] == Respond(views[1..][k - 1], severity, time, progname, tail[k - 1]);
      }
    }
    forall k | 0 <= k < |views| - 1
      ensures msgs[k + 1] == Handed(views[k].base, views[k].mode, views[k].tags, msgs[k])
    {
      if k > 0 {
        var w := views[1..][k - 1];
        assert w == views[k] && tail[k - 1] == msgs[k] && tail[k] == msgs[k + 1];
        assert tail[k] == Handed(w.base, w.mode, w.tags, tail[k - 1]);
      }
    }
  }

  /**
   * The loggers, whose formatters return `outs`, take their turns in order: each
   * writes its line, and an exception raised by one leaves those after it out.
   */
  function Deliver(outs: seq<Result<string, RubyError>>): (r: Spread)
    ensures |r.lines| == |outs|
  {
    if outs == [] then Spread([], None)
    else if outs[0].Err? then Spread(Empties(|outs|), Some(outs[0].error))
    else
      var rest := Deliver(outs[1..]);
      Spread([[outs[0].value]] + rest.lines, rest.error)
  }

  /** A log call on the broadcast logger: every logger has its turn. */
  function Dispatch(views: seq<View>, severity: Value, time: Value, progname: Value, msg: Value): (r: Spread)
    ensures |r.lines| == |views|
  {
    Deliver(Outcomes(views, severity, time, progname, msg))
  }

  /**
   * A log call in which every logger formats the message as the caller passed it, as
   * if each were handed its own copy: the isolation the broadcast logger is meant to have.
   */
  function DispatchCopies(views: seq<View>, severity: Value, time: Value, progname: Value, msg: Value): (r: Spread)
    ensures |r.lines| == |views|
  {
    Deliver(seq(|views|, k requires 0 <= k < |views| => Respond(views[k], severity, time, progname, msg)))
  }

  /** The first logger's turn, and what the loggers after it write. */
  lemma DeliverCons(first: Result<string, RubyError>, outs: seq<Result<string, RubyError>>)
    ensures var out := Deliver([first] + outs);
      var rest := Deliver(outs);
      out.error == (if first.Err? then Some(first.error) else rest.error) &&
      forall k :: 0 <= k <= |outs| ==>
        out.lines[k] == if first.Err? then [] else if k == 0 then [first.value] else rest.lines[k - 1]
  {
    assert ([first] + outs)[0] == first && ([first] + outs)[1..] == outs;
  }

  /** A script run through the broadcast logger, whose nested blocks go through its `tagged`. */
  function PlayAll(views: seq<View>, actions: seq<Action>): (r: Spread)
    ensures |r.lines| == |views|
    decreases actions, 1
  {
    if actions == [] then Spread(Empties(|views|), None)
    else
      assert actions[0] in actions;
      var first := StepAll(views, actions[0]);
      if first.error.Some? then first
      else
        var rest := PlayAll(views, actions[1..]);
        Spread(Concat(first.lines, rest.lines), rest.error)
  }

  /** One step of a script run through the broadcast logger. */
  function StepAll(views: seq<View>, a: Action): (r: Spread)
    ensures |r.lines| == |views|
    decreases a, 0
  {
    match a
    case Log(severity, time, progname, msg) => Dispatch(views, severity, time, progname, msg)
    case Scope(tags, body) => PlayAll(Push(views, tags), body)
  }

  // ---------------------------------------------------------------------------
  // The object

  /** What `l` formats with. */
  function ViewOf(l: Logger): View
    reads l.formatter
  {
    View(l.formatter.base, l.formatter.mode, l.formatter.tags)
  }

  function Formatters(ls: seq<Logger>): set<TagFormatter> {
    set l | l in ls :: l.formatter
  }

  function Devices(ls: seq<Logger>): set<Device> {
    set l | l in ls :: l.device
  }

  lemma ViewsAt(before: seq<View>, after: seq<View>, n: nat, tags: seq<Value>)
    requires 0 < n <= |before| == |after|
    requires after[n - 1] == Pushed(before[n - 1], tags)
    requires forall k :: 0 <= k < |before| && k != n - 1 ==> after[k] == before[k]
    ensures Push(after[..n - 1], tags) + after[n - 1..] == Push(before[..n], tags) + before[n..]
  {
    var l := Push(after[..n - 1], tags) + after[n - 1..];
    var r := Push(before[..n], tags) + before[n..];
    assert |l| == |r|;
    forall k | 0 <= k < |l|
      ensures l[k] == r[k]
    {
      if k < n - 1 {
        assert l[k] == Push(after[..n - 1], tags)[k];
        assert r[k] == Push(before[..n], tags)[k];
      } else if k == n - 1 {
        assert l[k] == after[n - 1];
        assert r[k] == Push(before[..n], tags)[k];
      } else {
        assert l[k] == after[k] && r[k] == before[k];
      }
    }
  }

  lemma PushAt(r: seq<View>, views: seq<View>, tags: seq<Value>)
    requires |r| == |views|
    requires forall i :: 0 <= i < |r| ==> r[i] == Pushed(views[i], tags)
    ensures r == Push(views, tags)
  {
  }

  lemma ConcatAssoc(a: seq<seq<string>>, b: seq<seq<string>>, c: seq<seq<string>>)
    requires |a| == |b| == |c|
    ensures Concat(Concat(a, b), c) == Concat(a, Concat(b, c))
  {
    assert |Concat(Concat(a, b), c)| == |Concat(a, Concat(b, c))|;
    forall i | 0 <= i < |a|
      ensures Concat(Concat(a, b), c)[i] == Concat(a, Concat(b, c))[i]
    {
      assert (a[i] + b[i]) + c[i] == a[i] + (b[i] + c[i]);
    }
  }

  lemma ConcatEmpties(a: seq<seq<string>>)
    ensures Concat(a, Empties(|a|)) == a
  {
    assert forall i :: 0 <= i < |a| ==> a[i] + [] == a[i];
  }

  /** The devices of `b`, each holding what it held in `start` followed by what `out` has for it. */
  lemma Collected(b: TaggedBroadcastLogger, start: seq<seq<string>>, out: seq<seq<string>>)
    requires |start| == |out| == |b.broadcasts|
    requires forall k :: 0 <= k < |b.broadcasts| ==> b.broadcasts[k].device.lines == start[k] + out[k]
    ensures b.Lines() == Concat(start, out)
  {
  }

  /** `logger.respond_to?(:tagged) ? logger.tagged(*tags) : logger`. */
  method Retag(l: Logger, tags: seq<Value>) returns (r: Logger)
    ensures r.device == l.device
    ensures if l.Capable() then fresh(r) && fresh(r.formatter) else r == l
    ensures ViewOf(r) == Pushed(ViewOf(l), tags)
  {
    r := l;
    if l.Capable() {
      r := l.Derive(tags);
    }
  }

  /** `loggers.map { |logger| logger.respond_to?(:tagged) ? logger.tagged(*tags) : logger }`. */
  method RetagAll(ls: seq<Logger>, tags: seq<Value>) returns (loggers: seq<Logger>)
    requires forall j, k :: 0 <= j < k < |ls| ==> ls[j].formatter != ls[k].formatter
    ensures |loggers| == |ls|
    ensures forall k :: 0 <= k < |ls| ==> loggers[k].device == ls[k].device
    ensures forall k :: 0 <= k < |ls| ==>
      if ls[k].Capable() then fresh(loggers[k]) && fresh(loggers[k].formatter) else loggers[k] == ls[k]
    ensures forall k :: 0 <= k < |ls| ==> ViewOf(loggers[k]) == Pushed(ViewOf(ls[k]), tags)
    ensures forall j, k :: 0 <= j < k < |ls| ==> loggers[j].formatter != loggers[k].formatter
  {
    loggers := [];
    var i := 0;
    while i < |ls|
      invariant 0 <= i <= |ls| && |loggers| == i
      invariant forall k :: 0 <= k < i ==> loggers[k].device == ls[k].device
      invariant forall k :: 0 <= k < i ==>
        if ls[k].Capable() then fresh(loggers[k]) && fresh(loggers[k].formatter) else loggers[k] == ls[k]
      invariant forall k :: 0 <= k < i ==> ViewOf(loggers[k]) == Pushed(ViewOf(ls[k]), tags)
      invariant forall j, k :: 0 <= j < k < i ==> loggers[j].formatter != loggers[k].formatter
    {
      var l := Retag(ls[i], tags);
      loggers := loggers + [l];
      i := i + 1;
    }
  }

  /** `TaggedBroadcastLogger.new.tap { |logger| logger.formatter = formatter; logger.broadcast_to(*loggers) }`. */
  method Assemble(formatter: Option<TagFormatter>, loggers: seq<Logger>) returns (b: TaggedBroadcastLogger)
    ensures fresh(b) && b.broadcasts == loggers && b.formatter == formatter
  {
    b := new TaggedBroadcastLogger([]);
    // `formatter=` dispatches to the loggers, of which there are none yet.
    b.formatter := formatter;
    b.BroadcastTo(loggers);
    assert [] + loggers == loggers;
  }

  /** ActiveSupport's `BroadcastLogger`, as extended here. */
  class TaggedBroadcastLogger {
    var broadcasts: seq<Logger>
    var formatter: Option<TagFormatter>

    /** `BroadcastLogger.new(*loggers)`. */
    constructor(loggers: seq<Logger>)
      ensures broadcasts == loggers && formatter == None
    {
      broadcasts := loggers;
      formatter := None;
    }

    /** The loggers write to different devices through different formatters. */
    predicate Valid()
      reads this
    {
      forall i, j :: 0 <= i < j < |broadcasts| ==>
        broadcasts[i].device != broadcasts[j].device && broadcasts[i].formatter != broadcasts[j].formatter
    }

    /** What each logger formats with. */
    function Views(): (r: seq<View>)
      reads this, Formatters(broadcasts)
      ensures |r| == |broadcasts| && forall i :: 0 <= i < |broadcasts| ==> r[i] == ViewOf(broadcasts[i])
    {
      seq(|broadcasts|, i requires 0 <= i < |broadcasts| reads this, Formatters(broadcasts) => ViewOf(broadcasts[i]))
    }

    /** What each logger's device holds. */
    function Lines(): (r: seq<seq<string>>)
      reads this, Devices(broadcasts)
      ensures |r| == |broadcasts| && forall i :: 0 <= i < |broadcasts| ==> r[i] == broadcasts[i].device.lines
    {
      seq(|broadcasts|, i requires 0 <= i < |broadcasts| reads this, Devices(broadcasts) => broadcasts[i].device.lines)
    }

    /** `broadcast_to(*loggers)`. */
    method BroadcastTo(loggers: seq<Logger>)
      modifies this
      ensures broadcasts == old(broadcasts) + loggers
      ensures formatter == old(formatter)
    {
      broadcasts := broadcasts + loggers;
    }

    /** A log call (`info`, `add`, ...): dispatched to each logger in turn. */
    method Add(severity: Value, time: Value, progname: Value, msg: Value) returns (error: Option<RubyError>)
      requires Valid()
      modifies Devices(broadcasts)
      ensures var out := Dispatch(old(Views()), severity, time, progname, msg);
        error == out.error && Lines() == Concat(old(Lines()), out.lines)
    {
      ghost var start := Lines();
      ghost var views := Views();
      ghost var outs := Outcomes(views, severity, time, progname, msg);
      ghost var msgs := Threads(views, severity, time, progname, msg);
      assert outs[0..] == outs;
      error := Cast(0, severity, time, progname, msg, views, msgs, outs);
      Collected(this, start, Dispatch(old(Views()), severity, time, progname, msg).lines);
    }

    /**
     * The turns of loggers `i`, `i + 1`, ... in a log call threaded through `msgs` and
     * `outs`, whose message reaches logger `i` as `msg`.
     */
    method Cast(i: nat, severity: Value, time: Value, progname: Value, msg: Value,
                ghost views: seq<View>, ghost msgs: seq<Value>, ghost outs: seq<Result<string, RubyError>>)
      returns (error: Option<RubyError>)
      requires Valid() && i <= |broadcasts| && views == Views()
      requires Threaded(views, severity, time, progname, msgs, outs) && (i < |msgs| ==> msg == msgs[i])
      modifies Devices(broadcasts)
      ensures var out := Deliver(outs[i..]);
        error == out.error &&
        (forall k :: 0 <= k < i ==> broadcasts[k].device.lines == old(broadcasts[k].device.lines)) &&
        (forall k :: i <= k < |broadcasts| ==> broadcasts[k].device.lines == old(broadcasts[k].device.lines) + out.lines[k - i])
      decreases |broadcasts| - i
    {
      if i == |broadcasts| {
        return None;
      }
      var rest;
      error, rest := Turn(i, severity, time, progname, msg, views, msgs, outs);
      label turned:
      if error.None? {
        error := Cast(i + 1, severity, time, progname, rest, views, msgs, outs);
      }
      assert outs[i..] == [outs[i]] + outs[i + 1..];
      DeliverCons(outs[i], outs[i + 1..]);
      forall k | i <= k < |broadcasts|
        ensures broadcasts[k].device.lines == old(broadcasts[k].device.lines) + Deliver(outs[i..]).lines[k - i]
      {
        if k > i && outs[i].Ok? {
          assert old@turned(broadcasts[k].device.lines) == old(broadcasts[k].device.lines);
        }
      }
    }

    /**
     * Logger `i`'s turn in a log call threaded through `msgs` and `outs`: the message
     * reaches it as `msg`, and `rest` is what its formatter leaves of it for the next logger.
     */
    method Turn(i: nat, severity: Value, time: Value, progname: Value, msg: Value,
                ghost views: seq<View>, ghost msgs: seq<Value>, ghost outs: seq<Result<string, RubyError>>)
      returns (e: Option<RubyError>, rest: Value)
      requires i < |broadcasts| && views == Views()
      requires Threaded(views, severity, time, progname, msgs, outs) && msg == msgs[i]
      modifies broadcasts[i].device
      ensures e == (if outs[i].Ok? then None else Some(outs[i].error))
      ensures broadcasts[i].device.lines == old(broadcasts[i].device.lines) + (if outs[i].Ok? then [outs[i].value] else [])
      ensures e.None? && i + 1 < |msgs| ==> rest == msgs[i + 1]
    {
      var v := views[i];
      assert outs[i] == Respond(v, severity, time, progname, msgs[i]);
      assert i + 1 < |msgs| ==> msgs[i + 1] == Handed(v.base, v.mode, v.tags, msgs[i]);
      e, rest := broadcasts[i].Add(severity, time, progname, msg);
    }

    /** A script run through this logger, each nested block through `tagged`. */
    method Run(actions: seq<Action>) returns (error: Option<RubyError>)
      requires Valid()
      modifies Devices(broadcasts), Formatters(broadcasts)
      ensures var out := PlayAll(old(Views()), actions);
        error == out.error && Lines() == Concat(old(Lines()), out.lines)
      ensures Views() == old(Views())
      decreases actions, 0, 0, 0
    {
      if actions == [] {
        ConcatEmpties(Lines());
        return None;
      }
      assert actions[0] in actions;
      ghost var first := StepAll(Views(), actions[0]);
      match actions[0] {
        case Log(severity, time, progname, msg) =>
          error := Add(severity, time, progname, msg);
        case Scope(tags, body) =>
          var r := Tagged(tags, body);
          error := if r.Ok? then None else Some(r.error);
      }
      ghost var mid := Lines();
      assert error == first.error && mid == Concat(old(Lines()), first.lines);
      if error.None? {
        error := Run(actions[1..]);
        ConcatAssoc(old(Lines()), first.lines, PlayAll(old(Views()), actions[1..]).lines);
      }
    }

    /**
     * `tagged(*tags) { ... }`: the block is folded into one procedure per logger that
     * responds to `tagged`, the last one outermost; the broadcast logger is returned.
     */
    method Tagged(tags: seq<Value>, body: seq<Action>) returns (r: Result<TaggedBroadcastLogger, RubyError>)
      requires Valid()
      modifies Devices(broadcasts), Formatters(broadcasts)
      ensures var out := PlayAll(Push(old(Views()), tags), body);
        r == (if out.error.None? then Ok(this) else Err(out.error.value)) &&
        Lines() == Concat(old(Lines()), out.lines)
      ensures Views() == old(Views())
      decreases body, 2, 0, 0
    {
      assert Views()[..|broadcasts|] == Views() && Views()[|broadcasts|..] == [];
      assert Push(Views(), tags) + [] == Push(Views(), tags);
      var error := Nest(|broadcasts|, tags, body);
      r := if error.None? then Ok(this) else Err(error.value);
    }

    /**
     * The procedure the fold has built after `n` loggers: logger `n - 1`, if it
     * responds to `tagged`, runs the procedure for `n - 1` loggers inside its own
     * `tagged` block; with no logger left, the block is yielded.
     */
    method Nest(n: nat, tags: seq<Value>, body: seq<Action>) returns (error: Option<RubyError>)
      requires Valid() && n <= |broadcasts|
      modifies Devices(broadcasts), Formatters(broadcasts)
      ensures var out := PlayAll(Push(old(Views())[..n], tags) + old(Views())[n..], body);
        error == out.error && Lines() == Concat(old(Lines()), out.lines)
      ensures Views() == old(Views())
      decreases body, 1, n, 1
    {
      if n == 0 {
        assert Push(Views()[..0], tags) + Views()[0..] == Views();
        error := Run(body);
      } else if broadcasts[n - 1].Capable() {
        error := Layer(n, tags, body);
      } else {
        ViewsAt(Views(), Views(), n, tags);
        error := Nest(n - 1, tags, body);
      }
    }

    /** `logger.tagged(*tags, &block)` for logger `n - 1`, whose block is the procedure for `n - 1` loggers. */
    method Layer(n: nat, tags: seq<Value>, body: seq<Action>) returns (error: Option<RubyError>)
      requires Valid() && 0 < n <= |broadcasts| && broadcasts[n - 1].Capable()
      modifies Devices(broadcasts), Formatters(broadcasts)
      ensures var out := PlayAll(Push(old(Views())[..n], tags) + old(Views())[n..], body);
        error == out.error && Lines() == Concat(old(Lines()), out.lines)
      ensures Views() == old(Views())
      decreases body, 1, n, 0
    {
      ghost var before := Views();
      ghost var pushed := before[n - 1 := Pushed(before[n - 1], tags)];
      PushOn(n - 1, tags);
      ViewsAt(before, pushed, n, tags);
      error := Nest(n - 1, tags, body);
      assert Views() == pushed;
      PopOn(n - 1, before[n - 1], tags);
      assert pushed[n - 1 := before[n - 1]] == before;
    }

    /** Logger `i`'s `push_tags`: only its view changes, and no device. */
    method PushOn(i: nat, tags: seq<Value>)
      requires Valid() && i < |broadcasts| && broadcasts[i].Capable()
      modifies broadcasts[i].formatter
      ensures Views() == old(Views())[i := Pushed(old(Views())[i], tags)]
      ensures Lines() == old(Lines())
    {
      broadcasts[i].formatter.PushTags(tags);
    }

    /** Logger `i`'s `pop_tags` after `push_tags(*tags)`: its view is `v` again, and no device changes. */
    method PopOn(i: nat, ghost v: View, tags: seq<Value>)
      requires Valid() && i < |broadcasts| && v.mode != Untagged && Views()[i] == Pushed(v, tags)
      modifies broadcasts[i].formatter
      ensures Views() == old(Views())[i := v]
      ensures Lines() == old(Lines())
    {
      broadcasts[i].formatter.PopTags(|tags|);
      assert (v.tags + tags)[..|v.tags|] == v.tags;
    }

    /**
     * `tagged(*tags)` without a block: a new broadcast logger over the same devices,
     * where each logger that responds to `tagged` is replaced by its derived logger,
     * and whose formatter is the first logger's.
     */
    method Derive(tags: seq<Value>) returns (b: TaggedBroadcastLogger)
      requires Valid()
      ensures fresh(b) && b.Valid()
      ensures |b.broadcasts| == |broadcasts|
      ensures forall i :: 0 <= i < |broadcasts| ==> b.broadcasts[i].device == broadcasts[i].device
      ensures forall i :: 0 <= i < |broadcasts| ==>
        if broadcasts[i].Capable() then fresh(b.broadcasts[i]) && fresh(b.broadcasts[i].formatter)
        else b.broadcasts[i] == broadcasts[i]
      ensures b.Views() == Push(Views(), tags)
      ensures b.formatter == if broadcasts == [] then None else Some(b.broadcasts[0].formatter)
    {
      var loggers := RetagAll(broadcasts, tags);
      b := Assemble(if loggers == [] then None else Some(loggers[0].formatter), loggers);
      PushAt(b.Views(), Views(), tags);
    }
  }
}
