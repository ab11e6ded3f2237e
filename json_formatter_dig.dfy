/**
 * Deeper properties of the dotted keys `JSONFormatter` digs through: what survives at
 * every level of the path, and what happens when the last Hash level holds a String.
 */
module JsonFormatterDig {
  import opened Wrappers
  import opened Values
  import opened TagSyntax
  import opened JsonFormatter
  import opened JsonFormatterProps

  /**
   * Siblings at every level survive `dig(*prefix)[last] = v`: below the first `i` keys
   * of the path, a name other than the next one on the path holds what it held.
   */
  lemma {:induction false} DigFrame(h: seq<Field>, prefix: seq<string>, last: string, v: string, i: nat, n: string)
    requires |prefix| > 0 && Diggable(h, prefix) && 0 < i <= |prefix| && n != (prefix + [last])[i]
    ensures Dig(h, prefix, last, v).Ok?
    ensures At(Dig(h, prefix, last, v).value, prefix[..i] + [n]) == At(h, prefix[..i] + [n])
    decreases |prefix|
  {
    var key := StrKey(prefix[0]);
    var found := Get(h, key);
    var inner := if found.None? then [] else found.value.fields;
    var inner';
    var q := prefix[1..][..i - 1] + [n];
    if |prefix| == 1 {
      inner' := Put(inner, StrKey(last), Str(v));
      PutGet(inner, StrKey(last), Str(v), StrKey(n));
      AtOne(inner', n);
      AtOne(inner, n);
    } else if i == 1 {
      DigSets(inner, prefix[1..], last, v);
      inner' := Dig(inner, prefix[1..], last, v).value;
      AtOne(inner', n);
      AtOne(inner, n);
    } else {
      assert (prefix[1..] + [last])[i - 1] == (prefix + [last])[i];
      DigFrame(inner, prefix[1..], last, v, i - 1, n);
      inner' := Dig(inner, prefix[1..], last, v).value;
    }
    DigOneLevel(h, prefix, last, v, inner');
    HeadOfPath(prefix, i, n);
    AtPut(h, prefix[0], inner', q);
  }

  /** One level of `dig`: the first key's entry is replaced by the Hash the rest produced. */
  lemma DigOneLevel(h: seq<Field>, prefix: seq<string>, last: string, v: string, inner': seq<Field>)
    requires |prefix| > 0
    requires var found := Get(h, StrKey(prefix[0])); found.None? || found.value.Hash?
    requires var found := Get(h, StrKey(prefix[0]));
      var inner := if found.None? then [] else found.value.fields;
      if |prefix| == 1 then inner' == Put(inner, StrKey(last), Str(v))
      else Dig(inner, prefix[1..], last, v) == Ok(inner')
    ensures Dig(h, prefix, last, v) == Ok(Put(h, StrKey(prefix[0]), Hash(inner')))
  {
  }

  /** A one-name path reads that name. */
  lemma AtOne(h: seq<Field>, n: string)
    ensures At(h, [n]) == Get(h, StrKey(n))
  {
  }

  /** The first `i` keys of a path, then `n`: its head, then the rest read one level down. */
  lemma HeadOfPath(prefix: seq<string>, i: nat, n: string)
    requires 0 < i <= |prefix|
    ensures prefix[..i] + [n] == [prefix[0]] + (prefix[1..][..i - 1] + [n])
  {
    var a, b := prefix[..i] + [n], [prefix[0]] + (prefix[1..][..i - 1] + [n]);
    assert |a| == |b|;
    forall j | 0 <= j < |a|
      ensures a[j] == b[j]
    {
      if 0 < j < i {
        assert b[j] == prefix[1..][j - 1];
      }
    }
  }

  /** Replacing the Hash under `p` by one that agrees at `q` keeps what `p.q` holds. */
  lemma AtPut(h: seq<Field>, p: string, inner': seq<Field>, q: seq<string>)
    requires |q| > 0
    requires var found := Get(h, StrKey(p)); found.None? || found.value.Hash?
    requires var found := Get(h, StrKey(p));
      At(inner', q) == At(if found.None? then [] else found.value.fields, q)
    ensures At(Put(h, StrKey(p), Hash(inner')), [p] + q) == At(h, [p] + q)
  {
    var r := Put(h, StrKey(p), Hash(inner'));
    PutGet(h, StrKey(p), Hash(inner'), StrKey(p));
    assert ([p] + q)[0] == p && ([p] + q)[1..] == q;
    AtInto(r, [p] + q);
    AtInto(h, [p] + q);
  }

  /**
   * `dig(*prefix)[last] = v` where the levels above the last are Hashes and the last
   * holds a String: the first occurrence of `last` in it is replaced by `v`, or IndexError.
   */
  lemma {:induction false} DigIntoString(h: seq<Field>, prefix: seq<string>, last: string, v: string, s: string)
    requires |prefix| > 0
    requires forall i :: 0 < i < |prefix| ==> At(h, prefix[..i]).Some? && At(h, prefix[..i]).value.Hash?
    requires At(h, prefix) == Some(Str(s))
    ensures var replaced := ReplaceFirst(s, last, v);
      if replaced.None? then Dig(h, prefix, last, v) == Err(IndexError)
      else Dig(h, prefix, last, v).Ok? && At(Dig(h, prefix, last, v).value, prefix) == Some(Str(replaced.value))
    decreases |prefix|
  {
    var key := StrKey(prefix[0]);
    if |prefix| == 1 {
      var replaced := ReplaceFirst(s, last, v);
      if replaced.Some? {
        PutGet(h, key, Str(replaced.value), key);
      }
    } else {
      assert prefix[..1] == [prefix[0]];
      var inner := Get(h, key).value.fields;
      forall i | 0 < i < |prefix|
        ensures At(h, prefix[..i + 1]) == At(inner, prefix[1..][..i])
      {
        assert prefix[..i + 1][0] == prefix[0] && prefix[..i + 1][1..] == prefix[1..][..i];
        AtInto(h, prefix[..i + 1]);
      }
      assert prefix[..|prefix|] == prefix;
      DigIntoString(inner, prefix[1..], last, v, s);
      var res := Dig(inner, prefix[1..], last, v);
      if res.Ok? {
        var r := Put(h, key, Hash(res.value));
        PutGet(h, key, Hash(res.value), key);
        AtInto(r, prefix);
      }
    }
  }

  /** The middle levels of `a.b.c=v`: off the path, every name holds what it held. */
  lemma StoreDeepFrame(h: seq<Field>, path: seq<string>, v: string, sep: Option<char>, i: nat, n: string)
    requires |path| >= 2 && (forall i :: 0 <= i < |path| ==> '.' !in path[i]) && path[|path| - 1] != ""
    requires Diggable(h, path[..|path| - 1])
    requires 0 < i < |path| && n != path[i]
    ensures StorePair(h, Pair(Join(path, '.'), v, sep)).Ok?
    ensures At(StorePair(h, Pair(Join(path, '.'), v, sep)).value, path[..i] + [n]) == At(h, path[..i] + [n])
  {
    var prefix, last := path[..|path| - 1], path[|path| - 1];
    assert prefix + [last] == path && prefix[..i] == path[..i];
    DeepStorePair(h, path, v, sep);
    DigFrame(h, prefix, last, v, i, n);
  }

  /**
   * `a.b.c=v` where the levels above the last are Hashes and the last of them holds a
   * String: the first occurrence of the last part in it is replaced by `v`, or IndexError.
   */
  lemma StoreDeepIntoString(h: seq<Field>, path: seq<string>, v: string, sep: Option<char>, s: string)
    requires |path| >= 2 && (forall i :: 0 <= i < |path| ==> '.' !in path[i]) && path[|path| - 1] != ""
    requires forall i :: 0 < i < |path| - 1 ==> At(h, path[..i]).Some? && At(h, path[..i]).value.Hash?
    requires At(h, path[..|path| - 1]) == Some(Str(s))
    ensures var res := StorePair(h, Pair(Join(path, '.'), v, sep));
      var replaced := ReplaceFirst(s, path[|path| - 1], v);
      if replaced.None? then res == Err(IndexError)
      else res.Ok? && At(res.value, path[..|path| - 1]) == Some(Str(replaced.value))
  {
    var prefix := path[..|path| - 1];
    DeepStorePair(h, path, v, sep);
    forall i | 0 < i < |prefix|
      ensures prefix[..i] == path[..i]
    {
    }
    DigIntoString(h, prefix, path[|path| - 1], v, s);
  }
}
