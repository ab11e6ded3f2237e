/**
 * What the tagged broadcast logger promises: when nothing raises, every logger of
 * the broadcast writes exactly what it would write on its own, with the block's tags
 * pushed onto its own tags if it responds to `tagged`; and the logger `tagged`
 * returns without a block writes what the block form writes.
 */
module TaggedBroadcastProps {
  import opened Wrappers
  import opened Values
  import opened JsonFormatter
  import opened JsonFormatterProps
  import opened TaggedLogging
  import opened TaggedBroadcast

  /** A script run by the logger that formats with `v`, on its own. */
  function Alone(v: View, actions: seq<Action>): Outcome {
    Play(v.base, v.mode, v.tags, actions)
  }

  // ---------------------------------------------------------------------------
  // A broadcast is its loggers side by side

  /** The turns of a log call end without an exception exactly when every formatter returns a line. */
  lemma {:induction false} DeliverClean(outs: seq<Result<string, RubyError>>)
    ensures Deliver(outs).error.None? <==> forall i :: 0 <= i < |outs| ==> outs[i].Ok?
    ensures Deliver(outs).error.None? ==> forall i :: 0 <= i < |outs| ==> Deliver(outs).lines[i] == [outs[i].value]
    decreases |outs|
  {
    if outs != [] {
      DeliverClean(outs[1..]);
      if outs[0].Ok? {
        var rest := Deliver(outs[1..]);
        assert Deliver(outs) == Spread([[outs[0].value]] + rest.lines, rest.error);
        assert forall i :: 0 < i < |outs| ==> outs[1..][i - 1] == outs[i];
      }
    }
  }

  /**
   * When logger `j` is the first whose formatter raises, the loggers before it have
   * written their lines, it and the loggers after it write nothing, and its exception
   * is the call's.
   */
  lemma {:induction false} DeliverStops(outs: seq<Result<string, RubyError>>, j: nat)
    requires j < |outs| && outs[j].Err? && forall i :: 0 <= i < j ==> outs[i].Ok?
    ensures Deliver(outs).error == Some(outs[j].error)
    ensures forall i :: 0 <= i < j ==> Deliver(outs).lines[i] == [outs[i].value]
    ensures forall i :: j <= i < |outs| ==> Deliver(outs).lines[i] == []
    decreases j
  {
    if j > 0 {
      DeliverStops(outs[1..], j - 1);
      var rest := Deliver(outs[1..]);
      assert Deliver(outs) == Spread([[outs[0].value]] + rest.lines, rest.error);
      assert forall i :: 0 < i < |outs| ==> outs[1..][i - 1] == outs[i];
    }
  }

  /** The logger after `tagged(*tags)` reached it, on its own, runs the block of a nested `tagged` block. */
  lemma PushedAlone(views: seq<View>, tags: seq<Value>, body: seq<Action>, i: nat)
    requires i < |views|
    ensures Alone(Push(views, tags)[i], body) == Step(views[i].base, views[i].mode, views[i].tags, Scope(tags, body))
  {
    assert Push(views, tags)[i] == Pushed(views[i], tags);
  }

  /**
   * A script run through the broadcast logger raises exactly when one of its loggers,
   * running the script on its own, would raise; when it does not, each logger's device
   * receives what that logger would write on its own.
   */
  lemma {:induction false} PlayAllApart(views: seq<View>, actions: seq<Action>)
    requires InertScript(actions)
    ensures var out := PlayAll(views, actions);
      (out.error.None? <==> forall i :: 0 <= i < |views| ==> Alone(views[i], actions).error.None?) &&
      (out.error.None? ==> forall i :: 0 <= i < |views| ==> out.lines[i] == Alone(views[i], actions).lines)
    decreases actions, 1
  {
    if actions == [] {
      return;
    }
    assert actions[0] in actions;
    var first := StepAll(views, actions[0]);
    StepAllApart(views, actions[0]);
    if first.error.Some? {
      var i :| 0 <= i < |views| && Step(views[i].base, views[i].mode, views[i].tags, actions[0]).error.Some?;
      assert Alone(views[i], actions).error.Some?;
    } else {
      PlayAllApart(views, actions[1..]);
      var rest := PlayAll(views, actions[1..]);
      assert PlayAll(views, actions) == Spread(Concat(first.lines, rest.lines), rest.error);
      forall i | 0 <= i < |views|
        ensures Alone(views[i], actions) == Outcome(first.lines[i] + Alone(views[i], actions[1..]).lines, Alone(views[i], actions[1..]).error)
      {
      }
    }
  }

  /** One step through the broadcast logger, against each logger's own step. */
  lemma {:induction false} StepAllApart(views: seq<View>, a: Action)
    requires InertStep(a)
    ensures var out := StepAll(views, a);
      (out.error.None? <==> forall i :: 0 <= i < |views| ==> Step(views[i].base, views[i].mode, views[i].tags, a).error.None?) &&
      (out.error.None? ==> forall i :: 0 <= i < |views| ==> out.lines[i] == Step(views[i].base, views[i].mode, views[i].tags, a).lines)
    decreases a, 0
  {
    match a
    case Log(severity, time, progname, msg) =>
      var outs := Outcomes(views, severity, time, progname, msg);
      DeliverClean(outs);
      OutcomesInert(views, severity, time, progname, msg);
    case Scope(tags, body) =>
      var pushed := Push(views, tags);
      PlayAllApart(pushed, body);
      forall i | 0 <= i < |views|
        ensures Alone(pushed[i], body) == Step(views[i].base, views[i].mode, views[i].tags, a)
      {
        PushedAlone(views, tags, body, i);
      }
  }

  // ---------------------------------------------------------------------------
  // The message the loggers share

  /** A message no formatter changes reaches every logger as the caller passed it. */
  lemma {:induction false} OutcomesInert(views: seq<View>, severity: Value, time: Value, progname: Value, msg: Value)
    requires Inert(msg)
    ensures var outs := Outcomes(views, severity, time, progname, msg);
      forall k :: 0 <= k < |views| ==> outs[k] == Respond(views[k], severity, time, progname, msg)
    decreases |views|
  {
    if views != [] {
      var v := views[0];
      assert Handed(v.base, v.mode, v.tags, msg) == msg;
      OutcomesInert(views[1..], severity, time, progname, msg);
      assert forall k :: 0 < k < |views| ==> views[1..][k - 1] == views[k];
    }
  }

  /** For such a message, the log call is the one in which every logger has its own copy. */
  lemma DispatchInert(views: seq<View>, severity: Value, time: Value, progname: Value, msg: Value)
    requires Inert(msg)
    ensures Dispatch(views, severity, time, progname, msg) == DispatchCopies(views, severity, time, progname, msg)
  {
    CopiesInert(views, severity, time, progname, msg);
  }

  /** For such a message, the formatters' outcomes are those on copies of it. */
  lemma CopiesInert(views: seq<View>, severity: Value, time: Value, progname: Value, msg: Value)
    requires Inert(msg)
    ensures Outcomes(views, severity, time, progname, msg) ==
      seq(|views|, k requires 0 <= k < |views| => Respond(views[k], severity, time, progname, msg))
  {
    OutcomesInert(views, severity, time, progname, msg);
  }

  /**
   * With a copy each, a log call raises exactly when one of the formatters raises on
   * the caller's message, and otherwise each device receives the line its own logger
   * makes of that message.
   */
  lemma CopiesApart(views: seq<View>, severity: Value, time: Value, progname: Value, msg: Value)
    ensures var out := DispatchCopies(views, severity, time, progname, msg);
      (out.error.None? <==> forall i :: 0 <= i < |views| ==> Respond(views[i], severity, time, progname, msg).Ok?) &&
      (out.error.None? ==> forall i :: 0 <= i < |views| ==> out.lines[i] == [Respond(views[i], severity, time, progname, msg).value])
  {
    var copies := seq(|views|, k requires 0 <= k < |views| => Respond(views[k], severity, time, progname, msg));
    assert DispatchCopies(views, severity, time, progname, msg) == Deliver(copies);
    assert forall i :: 0 <= i < |views| ==> copies[i] == Respond(views[i], severity, time, progname, msg);
    DeliverClean(copies);
  }

  /** The tag `{a: "b"}` under `:tags`, and `m: "x"` beside it. */
  function SharedMessage(): Value {
    Hash([S("tags", Arr([Hash([S("a", Str("b"))])])), S("m", Str("x"))])
  }

  /** Two loggers made by `JSONTaggedLogging.new` over `JSONFormatter.new(level: false)`, with no tags yet. */
  function JsonPair(): seq<View> {
    [View(JsonBase(Quiet), JsonTags, []), View(JsonBase(Quiet), JsonTags, [])]
  }

  /**
   * `info(SharedMessage())` through the broadcast of `JsonPair()`: the first formatter
   * hoists `{a: "b"}` and takes `:tags` out of the shared Hash, so the second formats
   * `{m: "x"}`. The first device's record has `a`; the second's, which on its own would
   * be the same, has not.
   */
  lemma SharedMessageInterferes(severity: Value, time: Value, progname: Value)
    ensures Handed(JsonBase(Quiet), JsonTags, [], SharedMessage()) == Hash([S("m", Str("x"))])
    ensures Outcomes(JsonPair(), severity, time, progname, SharedMessage()) ==
      [Format(Quiet, severity, time, progname, SharedMessage()), Format(Quiet, severity, time, progname, Hash([S("m", Str("x"))]))]
    ensures Record(Quiet, severity, time, progname, SharedMessage()) == Ok([S("a", Str("b")), S("m", Str("x"))])
    ensures Record(Quiet, severity, time, progname, Hash([S("m", Str("x"))])) == Ok([S("m", Str("x"))])
  {
    SharedLeft();
    SharedOutcomes(severity, time, progname);
    SharedRecord(severity, time, progname);
    assert Meta(Quiet, severity, time, progname) == [];
    assert DeepMerge([], [S("m", Str("x"))]) == [S("m", Str("x"))];
  }

  /** The broadcast of `JsonPair()` hands the second formatter what the first left of the shared Hash. */
  lemma SharedOutcomes(severity: Value, time: Value, progname: Value)
    ensures var v := View(JsonBase(Quiet), JsonTags, []);
      Outcomes(JsonPair(), severity, time, progname, SharedMessage()) ==
      [Format(Quiet, severity, time, progname, SharedMessage()),
       Format(Quiet, severity, time, progname, Handed(v.base, v.mode, v.tags, SharedMessage()))]
  {
    var v := View(JsonBase(Quiet), JsonTags, []);
    OutcomesPair(v, v, severity, time, progname, SharedMessage());
    UntaggedJson(Quiet, severity, time, progname, SharedMessage());
    UntaggedJson(Quiet, severity, time, progname, Handed(v.base, v.mode, v.tags, SharedMessage()));
  }

  /** Two loggers: the second answers what the first left of the message. */
  lemma OutcomesPair(v: View, w: View, severity: Value, time: Value, progname: Value, msg: Value)
    ensures Outcomes([v, w], severity, time, progname, msg) ==
      [Respond(v, severity, time, progname, msg), Respond(w, severity, time, progname, Handed(v.base, v.mode, v.tags, msg))]
  {
    assert [v, w][1..] == [w] && [w][1..] == [];
  }

  /** A JSON-tagging logger with no tags answers with its `JSONFormatter`'s line for the message itself. */
  lemma UntaggedJson(c: Config, severity: Value, time: Value, progname: Value, msg: Value)
    ensures Respond(View(JsonBase(c), JsonTags, []), severity, time, progname, msg) == Format(c, severity, time, progname, msg)
  {
    assert Wrap([], msg) == msg;
  }

  /** The first formatter takes `:tags` out of the shared Hash. */
  lemma SharedLeft()
    ensures Handed(JsonBase(Quiet), JsonTags, [], SharedMessage()) == Hash([S("m", Str("x"))])
  {
    var fields := SharedMessage().fields;
    assert fields == [Entry(TagsKey, Arr([Hash([S("a", Str("b"))])]))] + [S("m", Str("x"))];
    assert Get(fields, TagsKey).Some?;
    DeleteFirst(Entry(TagsKey, Arr([Hash([S("a", Str("b"))])])), [S("m", Str("x"))]);
  }

  /** Formatted on its own, the shared message hoists `a` ahead of `m`. */
  lemma SharedRecord(severity: Value, time: Value, progname: Value)
    ensures Record(Quiet, severity, time, progname, SharedMessage()) == Ok([S("a", Str("b")), S("m", Str("x"))])
  {
    SharedStage();
    assert Meta(Quiet, severity, time, progname) == [];
    MergeTwoFresh(S("a", Str("b")), S("m", Str("x")));
  }

  /** The tag is hoisted and `tags`, left empty, is dropped; `m` is what is merged. */
  lemma SharedStage()
    ensures Stage([], SharedMessage().fields) == Ok(Staged([S("a", Str("b"))], [S("m", Str("x"))]))
  {
    var tag := Hash([S("a", Str("b"))]);
    SharedHoist();
    assert Filter([tag], [false]) == [];
    StageAllHoisted([tag], [S("m", Str("x"))], tag.fields);
    assert SharedMessage().fields == [Entry(TagsKey, Arr([tag]))] + [S("m", Str("x"))];
  }

  /** The `delete_if` loop over the one tag merges it and marks it for deletion. */
  lemma SharedHoist()
    ensures var tag := Hash([S("a", Str("b"))]);
      var start := Hoisting([Entry(TagsKey, Arr([tag]))], [], true);
      Hoist(start, [tag]) == Ok(Hoisting(start.log + tag.fields, [false], true))
  {
    var tag := Hash([S("a", Str("b"))]);
    var start := Hoisting([Entry(TagsKey, Arr([tag]))], [], true);
    assert Keys(start.log) + Keys(tag.fields) == [TagsKey, SymKey("a")];
    HoistFreshHash(start, tag.fields);
    HoistCons(start, tag, []);
    assert [tag] + [] == [tag] && start.keep + [false] == [false];
    assert Hoist(Hoisting(start.log + tag.fields, [false], true), []) == Ok(Hoisting(start.log + tag.fields, [false], true));
  }

  // ---------------------------------------------------------------------------
  // The two forms of `tagged`

  /**
   * A `tagged(*tags)` block run through the broadcast logger is its body run by the
   * loggers with the tags pushed; so the broadcast logger `tagged(*tags)` returns
   * without a block, whose loggers format with exactly those tags, writes what the
   * block would.
   */
  lemma ScopeAsPush(views: seq<View>, tags: seq<Value>, body: seq<Action>)
    ensures PlayAll(views, [Scope(tags, body)]) == PlayAll(Push(views, tags), body)
  {
    var out := PlayAll(Push(views, tags), body);
    if out.error.None? {
      assert [Scope(tags, body)][1..] == [];
      ConcatEmpties(out.lines);
    }
  }

  /** A script of one step. */
  lemma PlayAllSingle(views: seq<View>, a: Action)
    ensures PlayAll(views, [a]) == StepAll(views, a)
  {
    var first := StepAll(views, a);
    if first.error.None? {
      assert [a][1..] == [];
      ConcatEmpties(first.lines);
    }
  }

  // ---------------------------------------------------------------------------
  // The three loggers of the broadcast logger's tests

  /** Two ActiveSupport tagged loggers and a plain logger, each writing the message as its line. */
  function Trio(): seq<View> {
    [View(TextBase, TextTags, []), View(TextBase, TextTags, []), View(TextBase, Untagged, [])]
  }

  /** A text formatter writes a String message as itself, after the `[tag] ` prefix when extended for tags. */
  lemma RespondText(v: View, severity: Value, time: Value, progname: Value, s: string)
    requires v.base == TextBase && v.mode != JsonTags
    ensures Respond(v, severity, time, progname, Str(s)) == Ok((if v.mode == TextTags then Prefix(v.tags) else "") + s + "\n")
  {
    var pre := if v.mode == TextTags then Prefix(v.tags) else "";
    if v.mode == TextTags && v.tags != [] {
      assert Decorate(v.mode, v.tags, Str(s)) == Str(pre + s);
    } else {
      assert Decorate(v.mode, v.tags, Str(s)) == Str(s);
      assert pre == "" && pre + s == s;
    }
  }

  /** A log call whose three formatters all return `line`, `line` and `last`. */
  lemma DeliverThree(outs: seq<Result<string, RubyError>>, line: string, last: string)
    requires outs == [Ok(line), Ok(line), Ok(last)]
    ensures Deliver(outs) == Spread([[line], [line], [last]], None)
  {
    DeliverClean(outs);
    var out := Deliver(outs);
    assert out.lines == [[line], [line], [last]];
  }

  /** Two text loggers extended for tags, both with the tags `t`, and a plain one: each writes the String as its line. */
  lemma TextTrio(t: seq<Value>, severity: Value, time: Value, progname: Value, s: string, line: string, last: string)
    requires line == Prefix(t) + s + "\n" && last == s + "\n"
    ensures Dispatch([View(TextBase, TextTags, t), View(TextBase, TextTags, t), View(TextBase, Untagged, [])], severity, time, progname, Str(s)) ==
      Spread([[line], [line], [last]], None)
  {
    var views := [View(TextBase, TextTags, t), View(TextBase, TextTags, t), View(TextBase, Untagged, [])];
    var outs := Outcomes(views, severity, time, progname, Str(s));
    OutcomesInert(views, severity, time, progname, Str(s));
    RespondText(views[0], severity, time, progname, s);
    RespondText(views[2], severity, time, progname, s);
    assert "" + s + "\n" == last;
    assert outs[0] == outs[1] == Ok(line) && outs[2] == Ok(last);
    DeliverThree(outs, line, last);
  }

  /** `logger.info('hello')` reaches every logger. */
  lemma TrioHello(severity: Value, time: Value, progname: Value)
    ensures Dispatch(Trio(), severity, time, progname, Str("hello")) == Spread([["hello\n"], ["hello\n"], ["hello\n"]], None)
  {
    HelloLines();
    TextTrio([], severity, time, progname, "hello", "hello\n", "hello\n");
  }

  /** `logger.tagged('foo', 'bar').info "hello"`: the derived loggers carry the tags. */
  lemma TrioDerived(severity: Value, time: Value, progname: Value)
    ensures Dispatch(Push(Trio(), [Str("foo"), Str("bar")]), severity, time, progname, Str("hello")) ==
      Spread([["[foo] [bar] hello\n"], ["[foo] [bar] hello\n"], ["hello\n"]], None)
  {
    var tags := [Str("foo"), Str("bar")];
    PushTrio(tags);
    HelloLines();
    TextTrio(tags, severity, time, progname, "hello", "[foo] [bar] hello\n", "hello\n");
  }

  /** The trio after `tagged(*tags)`: the two tagged loggers carry the tags. */
  lemma PushTrio(tags: seq<Value>)
    ensures Push(Trio(), tags) == [View(TextBase, TextTags, tags), View(TextBase, TextTags, tags), View(TextBase, Untagged, [])]
  {
    var trio := Trio();
    var r := Push(trio, tags);
    assert [] + tags == tags;
    assert |r| == 3 && trio[0] == trio[1] == View(TextBase, TextTags, []) && trio[2] == View(TextBase, Untagged, []);
    assert r[0] == View(TextBase, TextTags, tags);
    assert r[1] == View(TextBase, TextTags, tags);
    assert r[2] == View(TextBase, Untagged, []);
  }

  /** The lines `hello` makes, with no tags and with the tags `foo` and `bar`. */
  lemma HelloLines()
    ensures Prefix([]) + "hello" + "\n" == "hello\n" && "hello" + "\n" == "hello\n"
    ensures Prefix([Str("foo"), Str("bar")]) + "hello" + "\n" == "[foo] [bar] hello\n"
  {
    var tags := [Str("foo"), Str("bar")];
    assert tags[1..] == [Str("bar")] && tags[1..][1..] == [];
    assert Prefix(tags) == "[foo] [bar] ";
  }

  /** `logger.tagged('foo', 'bar') { logger.info 'hello' }` writes the same. */
  lemma TrioBlock(severity: Value, time: Value, progname: Value)
    ensures PlayAll(Trio(), [Scope([Str("foo"), Str("bar")], [Log(severity, time, progname, Str("hello"))])]) ==
      Spread([["[foo] [bar] hello\n"], ["[foo] [bar] hello\n"], ["hello\n"]], None)
  {
    var tags := [Str("foo"), Str("bar")];
    var log := Log(severity, time, progname, Str("hello"));
    ScopeAsPush(Trio(), tags, [log]);
    PlayAllSingle(Push(Trio(), tags), log);
    TrioDerived(severity, time, progname);
  }
}
