/**
 * The text grammar of an extractable tag, scanned by hand.
 *
 * TAG_EXTRACTION_RE matches one `key=value` pair and at most one following
 * whitespace character; TAG_EXTRACTION_CHECK_RE anchors one or more of them to the
 * whole string (`\A(...)+\Z`). Keys are runs of word characters and dots, values are
 * runs of non-whitespace (possibly empty, and free to contain `=`). `\Z` also matches
 * before one final newline, so a tag may end in one extra "\n".
 */
module TagSyntax {
  import opened Wrappers

  /** Ruby's `\w`: ASCII letters, digits and underscore. */
  predicate IsWordChar(c: char) {
    'a' <= c <= 'z' || 'A' <= c <= 'Z' || '0' <= c <= '9' || c == '_'
  }

  /** `[\.\w]`: a character of a tag key. */
  predicate IsKeyChar(c: char) {
    IsWordChar(c) || c == '.'
  }

  /** Ruby's `\s`: space, tab, line feed, vertical tab, form feed, carriage return. */
  predicate IsSpace(c: char) {
    c == ' ' || '\t' <= c <= '\r'
  }

  /** One match of TAG_EXTRACTION_RE: the key, the value and the whitespace character consumed after it, if any. */
  datatype Pair = Pair(key: string, value: string, sep: Option<char>)

  function SepText(p: Pair): string {
    if p.sep.Some? then [p.sep.value] else []
  }

  function PairText(p: Pair): string {
    p.key + ("=" + (p.value + SepText(p)))
  }

  /** The text a sequence of matches covers, read back. */
  function Unscan(ps: seq<Pair>): string {
    if ps == [] then "" else PairText(ps[0]) + Unscan(ps[1..])
  }

  predicate ValidPair(p: Pair) {
    && |p.key| > 0
    && (forall i :: 0 <= i < |p.key| ==> IsKeyChar(p.key[i]))
    && (forall i :: 0 <= i < |p.value| ==> !IsSpace(p.value[i]))
    && (p.sep.Some? ==> IsSpace(p.sep.value))
  }

  /**
   * Pairs that follow one another with nothing in between. A pair without a separator
   * can only be the last one; any other split of the same text regroups into such a
   * sequence, since a value may contain `=` (RechainSound).
   */
  predicate Chained(ps: seq<Pair>) {
    forall i :: 0 <= i < |ps| ==> ValidPair(ps[i]) && (i < |ps| - 1 ==> ps[i].sep.Some?)
  }

  /** TAG_EXTRACTION_CHECK_RE, `\A(pair)+\Z`, as a reference definition. */
  ghost predicate Matches(s: string) {
    exists ps :: Chained(ps) && |ps| > 0 && (s == Unscan(ps) || s == Unscan(ps) + "\n")
  }

  // ---------------------------------------------------------------------------
  // The scanner

  /** The length of the longest prefix of `s` made of key characters. */
  function KeyRun(s: string): (n: nat)
    ensures n <= |s|
  {
    if s == [] || !IsKeyChar(s[0]) then 0 else 1 + KeyRun(s[1..])
  }

  /** The key run is all key characters, and is as long as it can be. */
  lemma {:induction false} KeyRunSpec(s: string)
    ensures forall i :: 0 <= i < KeyRun(s) ==> IsKeyChar(s[i])
    ensures KeyRun(s) < |s| ==> !IsKeyChar(s[KeyRun(s)])
  {
    if s != [] && IsKeyChar(s[0]) {
      KeyRunSpec(s[1..]);
    }
  }

  /** The length of the longest prefix of `s` without whitespace. */
  function ValueRun(s: string): (n: nat)
    ensures n <= |s|
  {
    if s == [] || IsSpace(s[0]) then 0 else 1 + ValueRun(s[1..])
  }

  /** The value run holds no whitespace, and is as long as it can be. */
  lemma {:induction false} ValueRunSpec(s: string)
    ensures forall i :: 0 <= i < ValueRun(s) ==> !IsSpace(s[i])
    ensures ValueRun(s) < |s| ==> IsSpace(s[ValueRun(s)])
  {
    if s != [] && !IsSpace(s[0]) {
      ValueRunSpec(s[1..]);
    }
  }

  /** Whether a match of TAG_EXTRACTION_RE starts at the beginning of `s`. */
  predicate StartsWithPair(s: string) {
    var k := KeyRun(s);
    0 < k < |s| && s[k] == '='
  }

  /**
   * The match of TAG_EXTRACTION_RE at the start of `s`: the longest key, `=`, the
   * longest value and one whitespace character if one follows; and the text after it.
   */
  function FirstPair(s: string): (r: (Pair, string))
    requires StartsWithPair(s)
    ensures |r.1| < |s|
  {
    var k := KeyRun(s);
    var j := k + 1 + ValueRun(s[k + 1..]);
    if j < |s| then
      (Pair(s[..k], s[k + 1..j], Some(s[j])), s[j + 1..])
    else
      (Pair(s[..k], s[k + 1..j], None), "")
  }

  /** The first match is a valid pair, and its text followed by the rest is the input. */
  lemma FirstPairSound(s: string)
    requires StartsWithPair(s)
    ensures PairText(FirstPair(s).0) + FirstPair(s).1 == s
    ensures ValidPair(FirstPair(s).0)
    ensures FirstPair(s).0.sep.None? ==> FirstPair(s).1 == ""
  {
    var k := KeyRun(s);
    var j := k + 1 + ValueRun(s[k + 1..]);
    var (p, next) := FirstPair(s);
    KeyRunSpec(s);
    ValueRunSpec(s[k + 1..]);
    assert p.key == s[..k] && p.value == s[k + 1..j];
    assert ValidPair(p) by {
      assert forall i :: 0 <= i < |p.value| ==> p.value[i] == s[k + 1..][i];
    }
    assert s[j..] == SepText(p) + next;
    Reassemble(s, k, j);
    Reassociate(p.key, "=", p.value, SepText(p), next);
  }

  lemma Assoc(a: string, b: string, c: string)
    ensures (a + b) + c == a + (b + c)
  {
  }

  lemma Reassemble(s: string, k: nat, j: nat)
    requires k < j <= |s|
    ensures s == s[..k] + ([s[k]] + (s[k + 1..j] + s[j..]))
  {
  }

  lemma Reassociate(a: string, b: string, c: string, d: string, e: string)
    ensures (a + (b + (c + d))) + e == a + (b + (c + (d + e)))
  {
  }

  /** Consecutive matches of TAG_EXTRACTION_RE from the start of `s`, and the text left over after the last one. */
  function ScanPairs(s: string): (seq<Pair>, string)
    decreases |s|
  {
    if !StartsWithPair(s) then ([], s)
    else
      var (p, next) := FirstPair(s);
      var (ps, rest) := ScanPairs(next);
      ([p] + ps, rest)
  }

  /** `tag =~ TAG_EXTRACTION_CHECK_RE`: the matches cover the whole tag, up to one final newline. */
  predicate Extractable(s: string) {
    var (ps, rest) := ScanPairs(s);
    |ps| > 0 && (rest == "" || rest == "\n")
  }

  lemma {:induction false} UnscanAppend(ps: seq<Pair>, qs: seq<Pair>)
    ensures Unscan(ps + qs) == Unscan(ps) + Unscan(qs)
    decreases ps
  {
    if ps != [] {
      calc {
        Unscan(ps + qs);
        PairText((ps + qs)[0]) + Unscan((ps + qs)[1..]);
        { assert (ps + qs)[0] == ps[0]; assert (ps + qs)[1..] == ps[1..] + qs; }
        PairText(ps[0]) + Unscan(ps[1..] + qs);
        { UnscanAppend(ps[1..], qs); }
        PairText(ps[0]) + (Unscan(ps[1..]) + Unscan(qs));
        Unscan(ps) + Unscan(qs);
      }
    } else {
      assert ps + qs == qs;
    }
  }

  lemma ChainedTail(ps: seq<Pair>)
    requires Chained(ps) && ps != []
    ensures Chained(ps[1..])
  {
    forall i | 0 <= i < |ps| - 1
      ensures ValidPair(ps[1..][i]) && (i < |ps| - 2 ==> ps[1..][i].sep.Some?)
    {
      assert ps[1..][i] == ps[i + 1];
    }
  }

  lemma ChainedCons(p: Pair, ps: seq<Pair>)
    requires ValidPair(p) && Chained(ps)
    requires p.sep.None? ==> ps == []
    ensures Chained([p] + ps)
  {
    forall i | 0 <= i < |ps| + 1
      ensures ValidPair(([p] + ps)[i]) && (i < |ps| ==> ([p] + ps)[i].sep.Some?)
    {
      if i > 0 {
        assert ([p] + ps)[i] == ps[i - 1];
      }
    }
  }

  /** The scanner reads its input back exactly, and every match it reports is a valid one. */
  lemma {:induction false} ScanSound(s: string)
    ensures Unscan(ScanPairs(s).0) + ScanPairs(s).1 == s
    ensures Chained(ScanPairs(s).0)
    ensures ScanPairs(s).0 != [] && ScanPairs(s).0[|ScanPairs(s).0| - 1].sep.None? ==> ScanPairs(s).1 == ""
    decreases |s|
  {
    if StartsWithPair(s) {
      var (p, next) := FirstPair(s);
      FirstPairSound(s);
      ScanSound(next);
      var (ps, rest) := ScanPairs(next);
      assert ScanPairs(s) == ([p] + ps, rest);
      assert ([p] + ps)[1..] == ps;
      ChainedCons(p, ps);
      if ps != [] {
        assert ([p] + ps)[|ps|] == ps[|ps| - 1];
      }
    }
  }

  /** The match the scanner finds at the start of a valid pair's text is that pair. */
  lemma FirstPairOf(p: Pair, next: string)
    requires ValidPair(p)
    requires p.sep.None? ==> next == ""
    ensures StartsWithPair(PairText(p) + next)
    ensures FirstPair(PairText(p) + next) == (p, next)
  {
    PairPieces(p, next);
  }

  /** For ScanComplete: the first pair's text comes first, and the rest meets the same conditions. */
  lemma ScanCompleteTail(ps: seq<Pair>, rest: string)
    requires Chained(ps) && ps != []
    requires ps[|ps| - 1].sep.None? ==> rest == ""
    requires ps[|ps| - 1].sep.Some? ==> !StartsWithPair(rest)
    ensures Unscan(ps) + rest == PairText(ps[0]) + (Unscan(ps[1..]) + rest)
    ensures ValidPair(ps[0]) && (ps[0].sep.None? ==> Unscan(ps[1..]) + rest == "")
    ensures Chained(ps[1..])
    ensures ps[1..] != [] && ps[1..][|ps[1..]| - 1].sep.None? ==> rest == ""
    ensures ps[1..] == [] || ps[1..][|ps[1..]| - 1].sep.Some? ==> !StartsWithPair(rest)
  {
    Assoc(PairText(ps[0]), Unscan(ps[1..]), rest);
    ChainedTail(ps);
    if ps[0].sep.None? {
      assert |ps| == 1 && ps[1..] == [];
    } else if |ps| > 1 {
      assert ps[1..][|ps| - 2] == ps[|ps| - 1];
    }
  }

  /** The scan of a text that starts with a valid pair's text takes that pair first. */
  lemma ScanStep(p: Pair, next: string)
    requires ValidPair(p)
    requires p.sep.None? ==> next == ""
    ensures ScanPairs(PairText(p) + next) == ([p] + ScanPairs(next).0, ScanPairs(next).1)
  {
    FirstPairOf(p, next);
  }

  /** Where the key, the `=`, the value and the separator of a valid pair's text lie. */
  lemma PairPieces(p: Pair, next: string)
    requires ValidPair(p)
    requires p.sep.None? ==> next == ""
    ensures var s, k, j := PairText(p) + next, |p.key|, |p.key| + 1 + |p.value|;
      && KeyRun(s) == k && k < |s| && s[k] == '=' && ValueRun(s[k + 1..]) == |p.value|
      && s[..k] == p.key && s[k + 1..j] == p.value
      && (j < |s| <==> p.sep.Some?)
      && (p.sep.Some? ==> s[j] == p.sep.value && s[j + 1..] == next)
  {
    var tail := SepText(p) + next;
    Reassociate(p.key, "=", p.value, SepText(p), next);
    Pieces(p.key, p.value, tail);
    KeyRunOf(p.key, "=" + (p.value + tail));
    ValueRunOf(p.value, tail);
    if p.sep.Some? {
      assert tail[0] == p.sep.value && tail[1..] == next;
    }
  }

  lemma Pieces(key: string, value: string, tail: string)
    ensures var s := key + ("=" + (value + tail));
      && s[..|key|] == key && s[|key|] == '=' && s[|key| + 1..] == value + tail
      && s[|key| + 1..|key| + 1 + |value|] == value && s[|key| + 1 + |value|..] == tail
  {
  }

  /** Conversely, the scanner finds exactly the matches a chained text is made of. */
  lemma {:induction false} ScanComplete(ps: seq<Pair>, rest: string)
    requires Chained(ps)
    requires ps != [] && ps[|ps| - 1].sep.None? ==> rest == ""
    requires ps == [] || ps[|ps| - 1].sep.Some? ==> !StartsWithPair(rest)
    ensures ScanPairs(Unscan(ps) + rest) == (ps, rest)
    decreases ps
  {
    if ps != [] {
      ScanCompleteTail(ps, rest);
      ScanComplete(ps[1..], rest);
      ScanCons(ps, rest);
    } else {
      assert Unscan(ps) + rest == rest;
    }
  }

  /** The step of ScanComplete: the scan takes the first pair, then finds what it finds on the rest. */
  lemma ScanCons(ps: seq<Pair>, rest: string)
    requires ps != [] && ValidPair(ps[0]) && (ps[0].sep.None? ==> Unscan(ps[1..]) + rest == "")
    requires ScanPairs(Unscan(ps[1..]) + rest) == (ps[1..], rest)
    ensures ScanPairs(Unscan(ps) + rest) == (ps, rest)
  {
    var p, next := ps[0], Unscan(ps[1..]) + rest;
    Assoc(PairText(p), Unscan(ps[1..]), rest);
    ScanStep(p, next);
    assert ps == [p] + ps[1..];
  }

  lemma {:induction false} KeyRunOf(key: string, t: string)
    requires forall i :: 0 <= i < |key| ==> IsKeyChar(key[i])
    requires t != [] && !IsKeyChar(t[0])
    ensures KeyRun(key + t) == |key|
    decreases key
  {
    if key != [] {
      assert (key + t)[0] == key[0];
      assert (key + t)[1..] == key[1..] + t;
      assert forall i :: 0 <= i < |key| - 1 ==> key[1..][i] == key[i + 1];
      KeyRunOf(key[1..], t);
    } else {
      assert key + t == t;
    }
  }

  lemma {:induction false} ValueRunOf(value: string, t: string)
    requires forall i :: 0 <= i < |value| ==> !IsSpace(value[i])
    requires t == [] || IsSpace(t[0])
    ensures ValueRun(value + t) == |value|
    decreases value
  {
    if value != [] {
      assert (value + t)[0] == value[0];
      assert (value + t)[1..] == value[1..] + t;
      assert forall i :: 0 <= i < |value| - 1 ==> value[1..][i] == value[i + 1];
      ValueRunOf(value[1..], t);
    } else {
      assert value + t == t;
    }
  }

  /** A last match without a separator may take a final newline as its separator instead. */
  lemma CloseWithNewline(qs: seq<Pair>) returns (qs': seq<Pair>)
    requires Chained(qs) && |qs| > 0 && qs[|qs| - 1].sep.None?
    ensures Chained(qs') && |qs'| > 0 && qs'[|qs'| - 1].sep.Some?
    ensures Unscan(qs') == Unscan(qs) + "\n"
  {
    var init := qs[..|qs| - 1];
    var last := qs[|qs| - 1];
    var closed := Pair(last.key, last.value, Some('\n'));
    qs' := init + [closed];
    assert qs == init + [last];
    UnscanClose(init, last);
    assert Chained(qs') by {
      forall i | 0 <= i < |qs'| ensures ValidPair(qs'[i]) && (i < |qs'| - 1 ==> qs'[i].sep.Some?) {
        if i < |qs| - 1 {
          assert qs'[i] == qs[i];
        }
      }
    }
  }

  lemma UnscanClose(init: seq<Pair>, last: Pair)
    requires last.sep.None?
    ensures Unscan(init + [Pair(last.key, last.value, Some('\n'))]) == Unscan(init + [last]) + "\n"
  {
    var closed := Pair(last.key, last.value, Some('\n'));
    UnscanAppend(init, [last]);
    UnscanAppend(init, [closed]);
    UnscanOneClosed(last);
    Assoc(Unscan(init), Unscan([last]), "\n");
  }

  lemma UnscanOneClosed(last: Pair)
    requires last.sep.None?
    ensures Unscan([Pair(last.key, last.value, Some('\n'))]) == Unscan([last]) + "\n"
  {
    var closed := Pair(last.key, last.value, Some('\n'));
    assert [closed][1..] == [] && [last][1..] == [];
    assert Unscan([closed]) == PairText(closed) && Unscan([last]) == PairText(last);
    Reassociate(last.key, "=", last.value, "\n", "");
    Reassociate(last.key, "=", last.value, "", "\n");
  }

  lemma ExtractableMatches(s: string)
    requires Extractable(s)
    ensures Matches(s)
  {
    ScanSound(s);
    var (ps, rest) := ScanPairs(s);
    assert Chained(ps) && |ps| > 0 && (s == Unscan(ps) || s == Unscan(ps) + "\n");
  }

  lemma MatchesExtractable(s: string)
    requires Matches(s)
    ensures Extractable(s)
  {
    var qs: seq<Pair> :| Chained(qs) && |qs| > 0 && (s == Unscan(qs) || s == Unscan(qs) + "\n");
    assert KeyRun("") == 0 && KeyRun("\n") == 0;
    if s == Unscan(qs) {
      ScanComplete(qs, "");
      assert s == Unscan(qs) + "";
    } else if qs[|qs| - 1].sep.Some? {
      ScanComplete(qs, "\n");
    } else {
      var qs' := CloseWithNewline(qs);
      ScanComplete(qs', "");
      assert s == Unscan(qs') + "";
    }
  }

  /** The scanner decides exactly the anchored grammar: a tag is extractable if and only if it matches. */
  lemma ExtractableIffMatches(s: string)
    ensures Extractable(s) <==> Matches(s)
  {
    if Extractable(s) {
      ExtractableMatches(s);
    }
    if Matches(s) {
      MatchesExtractable(s);
    }
  }

  // ---------------------------------------------------------------------------
  // The literal regular expression

  /**
   * TAG_EXTRACTION_CHECK_RE read literally: one or more valid pairs, each followed by
   * at most one whitespace character, which may be missing between any two pairs.
   */
  ghost predicate RegexMatches(s: string) {
    exists ps :: |ps| > 0 && (forall i :: 0 <= i < |ps| ==> ValidPair(ps[i])) && (s == Unscan(ps) || s == Unscan(ps) + "\n")
  }

  /** A pair with no separator glued to the next one: the rest of the text becomes part of its value. */
  function Glue(p: Pair, q: Pair): Pair {
    Pair(p.key, p.value + (q.key + ("=" + q.value)), q.sep)
  }

  /** Regroups valid pairs into a chained sequence reading the same text. */
  function Rechain(ps: seq<Pair>): seq<Pair>
    requires |ps| > 0
    decreases |ps|
  {
    if |ps| == 1 then ps
    else if ps[0].sep.None? then Rechain([Glue(ps[0], ps[1])] + ps[2..])
    else [ps[0]] + Rechain(ps[1..])
  }

  lemma GlueText(p: Pair, q: Pair)
    requires p.sep.None?
    ensures PairText(Glue(p, q)) == PairText(p) + PairText(q)
    ensures ValidPair(p) && ValidPair(q) ==> ValidPair(Glue(p, q))
  {
    assert SepText(p) == [];
    if ValidPair(p) && ValidPair(q) {
      var g := Glue(p, q);
      forall i | 0 <= i < |g.value|
        ensures !IsSpace(g.value[i])
      {
        if i < |p.value| {
          assert g.value[i] == p.value[i];
        } else if i < |p.value| + |q.key| {
          assert g.value[i] == q.key[i - |p.value|];
        } else if i > |p.value| + |q.key| {
          assert g.value[i] == q.value[i - |p.value| - |q.key| - 1];
        }
      }
    }
  }

  /** Every split of a text into valid pairs regroups into a chained one. */
  lemma {:induction false} RechainSound(ps: seq<Pair>)
    requires |ps| > 0 && forall i :: 0 <= i < |ps| ==> ValidPair(ps[i])
    ensures |Rechain(ps)| > 0 && Chained(Rechain(ps)) && Unscan(Rechain(ps)) == Unscan(ps)
    decreases |ps|
  {
    if |ps| > 1 {
      if ps[0].sep.None? {
        var qs := [Glue(ps[0], ps[1])] + ps[2..];
        Glued(ps);
        RechainSound(qs);
      } else {
        AllValidTail(ps);
        RechainSound(ps[1..]);
        ChainedCons(ps[0], Rechain(ps[1..]));
      }
    }
  }

  /** Gluing the first two pairs keeps every pair valid and the text the same. */
  lemma Glued(ps: seq<Pair>)
    requires |ps| > 1 && ps[0].sep.None? && forall i :: 0 <= i < |ps| ==> ValidPair(ps[i])
    ensures var qs := [Glue(ps[0], ps[1])] + ps[2..];
      (forall i :: 0 <= i < |qs| ==> ValidPair(qs[i])) && Unscan(qs) == Unscan(ps)
  {
    var qs := [Glue(ps[0], ps[1])] + ps[2..];
    GlueText(ps[0], ps[1]);
    GluedText(ps[0], ps[1], ps[2..]);
    assert ps == [ps[0], ps[1]] + ps[2..];
    forall i | 0 < i < |qs|
      ensures ValidPair(qs[i])
    {
      assert qs[i] == ps[i + 1];
    }
  }

  lemma GluedText(p: Pair, q: Pair, rs: seq<Pair>)
    requires p.sep.None?
    ensures Unscan([Glue(p, q)] + rs) == Unscan([p, q] + rs)
  {
    GlueText(p, q);
    assert ([Glue(p, q)] + rs)[1..] == rs;
    assert ([p, q] + rs)[1..] == [q] + rs && ([q] + rs)[1..] == rs;
    Assoc(PairText(p), PairText(q), Unscan(rs));
  }

  lemma AllValidTail(ps: seq<Pair>)
    requires |ps| > 0 && forall i :: 0 <= i < |ps| ==> ValidPair(ps[i])
    ensures forall i :: 0 <= i < |ps| - 1 ==> ValidPair(ps[1..][i])
  {
    forall i | 0 <= i < |ps| - 1
      ensures ValidPair(ps[1..][i])
    {
      assert ps[1..][i] == ps[i + 1];
    }
  }

  /** The literal regular expression and the chained grammar accept the same strings. */
  lemma RegexIffMatches(s: string)
    ensures RegexMatches(s) <==> Matches(s)
  {
    if RegexMatches(s) {
      var ps: seq<Pair> :| |ps| > 0 && (forall i :: 0 <= i < |ps| ==> ValidPair(ps[i])) && (s == Unscan(ps) || s == Unscan(ps) + "\n");
      RechainSound(ps);
      assert Chained(Rechain(ps));
    }
    if Matches(s) {
      var ps: seq<Pair> :| Chained(ps) && |ps| > 0 && (s == Unscan(ps) || s == Unscan(ps) + "\n");
      assert forall i :: 0 <= i < |ps| ==> ValidPair(ps[i]);
    }
  }

  /** `tag =~ TAG_EXTRACTION_CHECK_RE`, read literally, holds exactly when the scanner accepts the tag. */
  lemma ExtractableIffRegex(s: string)
    ensures Extractable(s) <==> RegexMatches(s)
  {
    ExtractableIffMatches(s);
    RegexIffMatches(s);
  }

  // ---------------------------------------------------------------------------
  // String#split(".")

  /** The fields of `s` between occurrences of `sep`, empty ones included. */
  function SplitAll(s: string, sep: char): (r: seq<string>)
    ensures |r| > 0
    ensures forall i :: 0 <= i < |r| ==> sep !in r[i]
    decreases |s|
  {
    if sep !in s then [s]
    else
      var i := IndexOf(s, sep);
      [s[..i]] + SplitAll(s[i + 1..], sep)
  }

  function IndexOf(s: string, c: char): (i: nat)
    requires c in s
    ensures i < |s| && s[i] == c && c !in s[..i]
  {
    if s[0] == c then 0 else 1 + IndexOf(s[1..], c)
  }

  function Join(parts: seq<string>, sep: char): string
    requires |parts| > 0
  {
    if |parts| == 1 then parts[0] else parts[0] + [sep] + Join(parts[1..], sep)
  }

  /** Drops the empty strings at the end, as `String#split` does. */
  function DropTrailingEmpty(parts: seq<string>): (r: seq<string>)
    ensures r <= parts
    ensures r == [] || r[|r| - 1] != ""
    ensures forall i :: |r| <= i < |parts| ==> parts[i] == ""
  {
    if parts != [] && parts[|parts| - 1] == "" then DropTrailingEmpty(parts[..|parts| - 1]) else parts
  }

  /** `s.split(".")`. */
  function SplitDots(s: string): seq<string> {
    DropTrailingEmpty(SplitAll(s, '.'))
  }

  /** Splitting and joining again restores the text. */
  lemma {:induction false} SplitJoin(s: string, sep: char)
    ensures Join(SplitAll(s, sep), sep) == s
    decreases |s|
  {
    if sep in s {
      var i := IndexOf(s, sep);
      SplitJoin(s[i + 1..], sep);
      assert s == s[..i] + [sep] + s[i + 1..];
    }
  }

  /** Joining fields free of the separator and splitting again gives the fields back. */
  lemma {:induction false} JoinSplit(parts: seq<string>, sep: char)
    requires |parts| > 0 && forall i :: 0 <= i < |parts| ==> sep !in parts[i]
    ensures SplitAll(Join(parts, sep), sep) == parts
    decreases |parts|
  {
    if |parts| > 1 {
      var s := Join(parts, sep);
      var n := |parts[0]|;
      assert s[n] == sep && s[..n] == parts[0];
      assert IndexOf(s, sep) == n;
      assert s[n + 1..] == Join(parts[1..], sep);
      JoinSplit(parts[1..], sep);
    }
  }

  /** `parts.join(".").split(".")` is `parts` when no part holds a dot and the last one is not empty. */
  lemma SplitDotsJoin(parts: seq<string>)
    requires |parts| > 0 && (forall i :: 0 <= i < |parts| ==> '.' !in parts[i]) && parts[|parts| - 1] != ""
    ensures SplitDots(Join(parts, '.')) == parts
  {
    JoinSplit(parts, '.');
  }

  /** A dotted key `prefix.name` with dot-free parts splits into exactly those two parts. */
  lemma SplitTwo(prefix: string, name: string)
    requires '.' !in prefix && '.' !in name && name != ""
    ensures SplitDots(prefix + "." + name) == [prefix, name]
  {
    var s := prefix + "." + name;
    assert s[|prefix|] == '.';
    var i := IndexOf(s, '.');
    assert s[..|prefix|] == prefix;
    assert i == |prefix|;
    assert s[..i] == prefix && s[i + 1..] == name;
    assert SplitAll(s, '.') == [prefix, name];
  }

  /** A key whose only dot is its last character splits into fewer than two parts. */
  lemma TrailingDot(name: string)
    requires '.' !in name
    ensures |SplitDots(name + ".")| < 2
  {
    var s := name + ".";
    assert s[..|name|] == name && s[|name| + 1..] == "";
    assert IndexOf(s, '.') == |name|;
    assert SplitAll(s, '.') == [name, ""];
  }
}
