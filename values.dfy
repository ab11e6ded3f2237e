/**
 * The Ruby values a log record is built from: Strings, other scalars, Arrays and
 * insertion-ordered Hashes, with the two Hash operations the formatter relies on
 * (`Hash#[]=`, ActiveSupport's `Hash#deep_merge!`) and the JSON text `to_json`
 * produces for them.
 */
module Values {
  import opened Wrappers

  /** A Hash key. Keys written in code are Symbols; keys extracted from a tag string are Strings. */
  datatype Key = SymKey(name: string) | StrKey(name: string)

  /** The literal JSON text of a scalar that is not a String (a number, true, false, null). */
  type AtomText = s: string | '\n' !in s witness "null"

  datatype Value =
    | Str(s: string)
    | Sym(name: string)          // a Symbol used as a value; serialised like a String
    | Atom(lit: AtomText)
    | Arr(items: seq<Value>)
    | Hash(fields: seq<Field>)   // entries in insertion order

  /** A Hash entry; `sym` tells whether its key is a Symbol or a String. */
  datatype Field = Field(sym: bool, name: string, val: Value) {
    const key: Key := if sym then SymKey(name) else StrKey(name)
  }

  function Entry(k: Key, v: Value): (f: Field)
    ensures f.key == k && f.val == v
  {
    Field(k.SymKey?, k.name, v)
  }

  function Keys(fs: seq<Field>): (ks: seq<Key>)
    ensures |ks| == |fs|
    ensures forall i :: 0 <= i < |fs| ==> ks[i] == fs[i].key
  {
    if fs == [] then [] else [fs[0].key] + Keys(fs[1..])
  }

  predicate Distinct(ks: seq<Key>) {
    forall i, j :: 0 <= i < j < |ks| ==> ks[i] != ks[j]
  }

  /** A Ruby Hash never holds a key twice, at any depth. */
  predicate WellFormed(v: Value) {
    match v
    case Arr(items) => forall i :: 0 <= i < |items| ==> WellFormed(items[i])
    case Hash(fs) => FieldsWellFormed(fs)
    case _ => true
  }

  predicate FieldsWellFormed(fs: seq<Field>) {
    Distinct(Keys(fs)) && forall i :: 0 <= i < |fs| ==> WellFormed(fs[i].val)
  }

  /** `h[k]`: the value stored under `k`, if any. */
  function Get(fs: seq<Field>, k: Key): Option<Value> {
    if fs == [] then None
    else if fs[0].key == k then Some(fs[0].val)
    else Get(fs[1..], k)
  }

  /** `h[k] = v`: an existing key keeps its position, a new key goes last. */
  function Put(fs: seq<Field>, k: Key, v: Value): (r: seq<Field>)
    ensures Keys(r) == if k in Keys(fs) then Keys(fs) else Keys(fs) + [k]
  {
    if fs == [] then [Entry(k, v)]
    else if fs[0].key == k then [Entry(k, v)] + fs[1..]
    else [fs[0]] + Put(fs[1..], k, v)
  }

  /** Every entry after `h[k] = v` is the new entry or one that was there before. */
  lemma {:induction false} PutMembers(fs: seq<Field>, k: Key, v: Value)
    ensures forall f :: f in Put(fs, k, v) ==> f == Entry(k, v) || f in fs
    decreases fs
  {
    if fs != [] && fs[0].key != k {
      PutMembers(fs[1..], k, v);
    }
  }

  /** After `h[k] = v`, `k` holds `v` and every other key holds what it held before. */
  lemma {:induction false} PutGet(fs: seq<Field>, k: Key, v: Value, k': Key)
    ensures Get(Put(fs, k, v), k') == if k' == k then Some(v) else Get(fs, k')
  {
    if k' == k {
      PutGetSame(fs, k, v);
    } else {
      PutGetOther(fs, k, v, k');
    }
  }

  lemma {:induction false} PutGetSame(fs: seq<Field>, k: Key, v: Value)
    ensures Get(Put(fs, k, v), k) == Some(v)
    decreases fs
  {
    if fs != [] && fs[0].key != k {
      var r := Put(fs, k, v);
      assert r[0] == fs[0] && r[1..] == Put(fs[1..], k, v);
      PutGetSame(fs[1..], k, v);
    }
  }

  lemma {:induction false} PutGetOther(fs: seq<Field>, k: Key, v: Value, k': Key)
    requires k' != k
    ensures Get(Put(fs, k, v), k') == Get(fs, k')
    decreases fs
  {
    if fs == [] {
      GetCons(Entry(k, v), [], k');
    } else if fs[0].key == k {
      GetCons(Entry(k, v), fs[1..], k');
    } else {
      GetCons(fs[0], Put(fs[1..], k, v), k');
      PutGetOther(fs[1..], k, v, k');
    }
  }

  /** `h[k]` on a record seen from its first entry. */
  lemma GetCons(g: Field, r: seq<Field>, k: Key)
    ensures Get([g] + r, k) == if g.key == k then Some(g.val) else Get(r, k)
  {
    assert ([g] + r)[0] == g && ([g] + r)[1..] == r;
  }

  /** `h[k] = v` past a first entry with another key. */
  lemma PutCons(g: Field, r: seq<Field>, k: Key, v: Value)
    requires g.key != k
    ensures Put([g] + r, k, v) == [g] + Put(r, k, v)
  {
    assert ([g] + r)[1..] == r;
  }

  /** A record split around one entry, seen from its first entry. */
  lemma Regroup(p: seq<Field>, f: Field, q: seq<Field>)
    requires p != []
    ensures p + [f] + q == [p[0]] + (p[1..] + [f] + q)
  {
    assert p == [p[0]] + p[1..];
  }

  /** `h[k] = v` on a key first held by the entry after `p` replaces that entry in place. */
  lemma {:induction false} PutAt(p: seq<Field>, f: Field, q: seq<Field>, v: Value)
    requires forall g :: g in p ==> g.key != f.key
    ensures Put(p + [f] + q, f.key, v) == p + [Entry(f.key, v)] + q
    decreases p
  {
    if p == [] {
      assert p + [f] + q == [f] + q;
      assert ([f] + q)[1..] == q;
    } else {
      assert p[0] in p;
      assert forall g :: g in p[1..] ==> g in p;
      Regroup(p, f, q);
      PutCons(p[0], p[1..] + [f] + q, f.key, v);
      PutAt(p[1..], f, q, v);
      Regroup(p, Entry(f.key, v), q);
    }
  }

  /** `h[k]` on a key first held by the entry after `p`. */
  lemma {:induction false} GetAt(p: seq<Field>, f: Field, q: seq<Field>)
    requires forall g :: g in p ==> g.key != f.key
    ensures Get(p + [f] + q, f.key) == Some(f.val)
    decreases p
  {
    if p == [] {
      assert p + [f] + q == [f] + q;
    } else {
      assert p[0] in p;
      assert forall g :: g in p[1..] ==> g in p;
      Regroup(p, f, q);
      assert ([p[0]] + (p[1..] + [f] + q))[1..] == p[1..] + [f] + q;
      GetAt(p[1..], f, q);
    }
  }

  /** Storing a new key appends it. */
  lemma {:induction false} PutNew(fs: seq<Field>, k: Key, v: Value)
    requires k !in Keys(fs)
    ensures Put(fs, k, v) == fs + [Entry(k, v)]
    decreases fs
  {
    if fs != [] {
      assert Keys(fs) == [fs[0].key] + Keys(fs[1..]);
      assert fs == [fs[0]] + fs[1..];
      PutCons(fs[0], fs[1..], k, v);
      PutNew(fs[1..], k, v);
      FieldsAssoc([fs[0]], fs[1..], [Entry(k, v)]);
    }
  }

  /** `h.delete(k)`. */
  function Delete(fs: seq<Field>, k: Key): (r: seq<Field>)
    ensures forall f :: f in r ==> f in fs && f.key != k
    ensures k !in Keys(fs) ==> r == fs
  {
    if fs == [] then []
    else if fs[0].key == k then Delete(fs[1..], k)
    else [fs[0]] + Delete(fs[1..], k)
  }

  /** After `h.delete(k)`, `k` is missing and every other key holds what it held before. */
  lemma {:induction false} DeleteGet(fs: seq<Field>, k: Key, k': Key)
    ensures Get(Delete(fs, k), k') == if k' == k then None else Get(fs, k')
    decreases fs
  {
    if fs != [] {
      DeleteGet(fs[1..], k, k');
      if fs[0].key != k {
        assert ([fs[0]] + Delete(fs[1..], k))[1..] == Delete(fs[1..], k);
      }
    }
  }

  /** The keys of `ls` that are not already in `ks`, in the order they first occur in `ls`. */
  function NewKeys(ks: seq<Key>, ls: seq<Key>): seq<Key>
    decreases ls
  {
    if ls == [] then []
    else if ls[0] in ks then NewKeys(ks, ls[1..])
    else [ls[0]] + NewKeys(ks + [ls[0]], ls[1..])
  }

  /**
   * ActiveSupport's `a.deep_merge!(b)`: every entry of `b`, in order, is stored in `a`;
   * when both sides hold a Hash under the key the two are merged recursively, otherwise
   * `b`'s value replaces `a`'s.
   */
  function DeepMerge(a: seq<Field>, b: seq<Field>): seq<Field>
    decreases b
  {
    if b == [] then a
    else
      var f := b[0];
      var old_val := Get(a, f.key);
      var v := if old_val.Some? && old_val.value.Hash? && f.val.Hash?
               then Hash(DeepMerge(old_val.value.fields, f.val.fields))
               else f.val;
      DeepMerge(Put(a, f.key, v), b[1..])
  }

  /** Ruby's `merge!`: the shallow merge, where `b`'s value always replaces `a`'s. */
  function Merge(a: seq<Field>, b: seq<Field>): seq<Field>
    decreases b
  {
    if b == [] then a else Merge(Put(a, b[0].key, b[0].val), b[1..])
  }

  /** What one key holds after a deep merge, given what each side holds there. */
  function MergedAt(x: Option<Value>, y: Option<Value>): Option<Value>
  {
    match y
    case None => x
    case Some(w) =>
      if x.Some? && x.value.Hash? && w.Hash? then Some(Hash(DeepMerge(x.value.fields, w.fields)))
      else y
  }

  lemma NewKeysSpec(ks: seq<Key>, ls: seq<Key>, k: Key)
    ensures k in NewKeys(ks, ls) <==> k !in ks && k in ls
    decreases ls
  {
    if ls != [] && ls[0] !in ks {
      NewKeysSpec(ks + [ls[0]], ls[1..], k);
    } else if ls != [] {
      NewKeysSpec(ks, ls[1..], k);
    }
  }

  lemma {:induction false} NewKeysDistinct(ks: seq<Key>, ls: seq<Key>)
    requires Distinct(ks)
    ensures Distinct(ks + NewKeys(ks, ls))
    decreases ls
  {
    if ls != [] {
      if ls[0] in ks {
        NewKeysDistinct(ks, ls[1..]);
      } else {
        NewKeysDistinct(ks + [ls[0]], ls[1..]);
        assert ks + NewKeys(ks, ls) == (ks + [ls[0]]) + NewKeys(ks + [ls[0]], ls[1..]);
      }
    }
  }

  /** A key is missing exactly when it is not among the keys. */
  lemma {:induction false} GetNone(fs: seq<Field>, k: Key)
    ensures Get(fs, k).None? <==> k !in Keys(fs)
    decreases fs
  {
    if fs != [] {
      assert Keys(fs) == [fs[0].key] + Keys(fs[1..]);
      GetNone(fs[1..], k);
    }
  }

  /** The position of the entry `Get` finds. */
  lemma GetFound(fs: seq<Field>, k: Key) returns (i: nat)
    requires k in Keys(fs)
    ensures i < |fs| && fs[i].key == k && Get(fs, k) == Some(fs[i].val)
    ensures forall j :: 0 <= j < i ==> fs[j].key != k
  {
    if fs[0].key == k {
      i := 0;
    } else {
      assert Keys(fs) == [fs[0].key] + Keys(fs[1..]);
      i := GetFound(fs[1..], k);
      i := i + 1;
    }
  }

  lemma {:induction false} DeepMergeKeys(a: seq<Field>, b: seq<Field>)
    ensures Keys(DeepMerge(a, b)) == Keys(a) + NewKeys(Keys(a), Keys(b))
    decreases b
  {
    if b != [] {
      var a' := DeepMergeStep(a, b);
      DeepMergeKeys(a', b[1..]);
      var k := b[0].key;
      assert Keys(b) == [k] + Keys(b[1..]);
      if k !in Keys(a) {
        KeysAssoc(Keys(a), k, NewKeys(Keys(a'), Keys(b[1..])));
      }
    }
  }

  /** The first step of a deep merge stores `b`'s first key in `a`. */
  lemma DeepMergeStep(a: seq<Field>, b: seq<Field>) returns (a': seq<Field>)
    requires b != []
    ensures Keys(a') == if b[0].key in Keys(a) then Keys(a) else Keys(a) + [b[0].key]
    ensures DeepMerge(a, b) == DeepMerge(a', b[1..])
  {
    var f := b[0];
    var old_val := Get(a, f.key);
    var v := if old_val.Some? && old_val.value.Hash? && f.val.Hash?
             then Hash(DeepMerge(old_val.value.fields, f.val.fields))
             else f.val;
    a' := Put(a, f.key, v);
  }

  lemma KeysAssoc(ks: seq<Key>, k: Key, rest: seq<Key>)
    ensures (ks + [k]) + rest == ks + ([k] + rest)
  {
  }

  lemma {:induction false} MergeKeys(a: seq<Field>, b: seq<Field>)
    ensures Keys(Merge(a, b)) == Keys(a) + NewKeys(Keys(a), Keys(b))
    decreases b
  {
    if b != [] {
      var a' := Put(a, b[0].key, b[0].val);
      MergeKeys(a', b[1..]);
      assert Keys(b) == [b[0].key] + Keys(b[1..]);
    }
  }

  /** Deep merge, key by key: a key only `b` holds is taken from `b`, a key only `a` holds keeps its value, and on a collision `b` wins unless both sides are Hashes, which merge. */
  lemma {:induction false} DeepMergeGet(a: seq<Field>, b: seq<Field>, k: Key)
    requires Distinct(Keys(b))
    ensures Get(DeepMerge(a, b), k) == MergedAt(Get(a, k), Get(b, k))
    decreases b
  {
    if b != [] {
      var f := b[0];
      var old_val := Get(a, f.key);
      var v := if old_val.Some? && old_val.value.Hash? && f.val.Hash?
               then Hash(DeepMerge(old_val.value.fields, f.val.fields))
               else f.val;
      assert Keys(b) == [f.key] + Keys(b[1..]);
      DistinctCons(f.key, Keys(b[1..]));
      DeepMergeGet(Put(a, f.key, v), b[1..], k);
      PutGet(a, f.key, v, k);
      if k == f.key {
        GetNone(b[1..], k);
      }
    }
  }

  /** Shallow merge, key by key: `b`'s entries win, `a`'s other entries survive. */
  lemma {:induction false} MergeGet(a: seq<Field>, b: seq<Field>, k: Key)
    requires Distinct(Keys(b))
    ensures Get(Merge(a, b), k) == if k in Keys(b) then Get(b, k) else Get(a, k)
    decreases b
  {
    if b != [] {
      assert Keys(b) == [b[0].key] + Keys(b[1..]);
      DistinctCons(b[0].key, Keys(b[1..]));
      MergeGet(Put(a, b[0].key, b[0].val), b[1..], k);
      PutGet(a, b[0].key, b[0].val, k);
      if k == b[0].key {
        GetNone(b[1..], k);
      }
    }
  }

  lemma DistinctCons(x: Key, ks: seq<Key>)
    ensures Distinct([x] + ks) <==> x !in ks && Distinct(ks)
  {
    var xs := [x] + ks;
    if Distinct(xs) {
      forall i, j | 0 <= i < j < |ks| ensures ks[i] != ks[j] {
        assert xs[i + 1] == ks[i] && xs[j + 1] == ks[j];
      }
      forall j | 0 <= j < |ks| ensures ks[j] != x {
        assert xs[0] == x && xs[j + 1] == ks[j];
      }
    }
  }

  lemma DistinctSnoc(ks: seq<Key>, x: Key)
    requires x !in ks && Distinct(ks)
    ensures Distinct(ks + [x])
  {
    var xs := ks + [x];
    forall i, j | 0 <= i < j < |xs| ensures xs[i] != xs[j] {
      assert xs[i] == ks[i];
    }
  }

  lemma FieldsWellFormedTail(fs: seq<Field>)
    requires fs != [] && FieldsWellFormed(fs)
    ensures FieldsWellFormed(fs[1..]) && fs[0].key !in Keys(fs[1..])
  {
    assert Keys(fs) == [fs[0].key] + Keys(fs[1..]);
    DistinctCons(fs[0].key, Keys(fs[1..]));
    forall i | 0 <= i < |fs| - 1 ensures WellFormed(fs[1..][i].val) {
      assert fs[1..][i] == fs[i + 1];
    }
  }

  /** Storing a well-formed value keeps a Hash well-formed. */
  lemma {:induction false} PutWellFormed(fs: seq<Field>, k: Key, v: Value)
    requires FieldsWellFormed(fs) && WellFormed(v)
    ensures FieldsWellFormed(Put(fs, k, v))
    decreases fs
  {
    var r := Put(fs, k, v);
    if k !in Keys(fs) {
      DistinctSnoc(Keys(fs), k);
    }
    if fs != [] && fs[0].key != k {
      FieldsWellFormedTail(fs);
      PutWellFormed(fs[1..], k, v);
      forall i | 0 <= i < |r| ensures WellFormed(r[i].val) {
        if i > 0 {
          assert r[i] == Put(fs[1..], k, v)[i - 1];
        }
      }
    } else if fs != [] {
      forall i | 0 <= i < |r| ensures WellFormed(r[i].val) {
        if i > 0 {
          assert r[i] == fs[i];
        }
      }
    }
  }

  lemma {:induction false} DeleteWellFormed(fs: seq<Field>, k: Key)
    requires FieldsWellFormed(fs)
    ensures FieldsWellFormed(Delete(fs, k))
    decreases fs
  {
    if fs != [] {
      var tail := fs[1..];
      FieldsWellFormedTail(fs);
      DeleteWellFormed(tail, k);
      if fs[0].key != k {
        var rest := Delete(tail, k);
        GetNone(tail, fs[0].key);
        DeleteGet(tail, k, fs[0].key);
        GetNone(rest, fs[0].key);
        assert WellFormed(fs[0].val);
        FieldsWellFormedCons(fs[0], rest);
      }
    }
  }

  lemma FieldsWellFormedCons(g: Field, r: seq<Field>)
    requires WellFormed(g.val) && g.key !in Keys(r) && FieldsWellFormed(r)
    ensures FieldsWellFormed([g] + r)
  {
    var fs := [g] + r;
    assert Keys(fs) == [g.key] + Keys(r) by {
      assert fs[0] == g && fs[1..] == r;
    }
    DistinctCons(g.key, Keys(r));
    forall i | 0 <= i < |fs| ensures WellFormed(fs[i].val) {
      if i > 0 {
        assert fs[i] == r[i - 1];
      }
    }
  }

  /** Merging two well-formed Hashes yields a well-formed Hash: no key is ever duplicated. */
  lemma {:induction false} DeepMergeWellFormed(a: seq<Field>, b: seq<Field>)
    requires FieldsWellFormed(a) && FieldsWellFormed(b)
    ensures FieldsWellFormed(DeepMerge(a, b))
    decreases b
  {
    if b != [] {
      var f := b[0];
      var old_val := Get(a, f.key);
      var v := if old_val.Some? && old_val.value.Hash? && f.val.Hash?
               then Hash(DeepMerge(old_val.value.fields, f.val.fields))
               else f.val;
      assert WellFormed(v) by {
        assert WellFormed(f.val);
        if old_val.Some? && old_val.value.Hash? && f.val.Hash? {
          GetNone(a, f.key);
          var i := GetFound(a, f.key);
          assert WellFormed(a[i].val);
          DeepMergeWellFormed(old_val.value.fields, f.val.fields);
        }
      }
      PutWellFormed(a, f.key, v);
      FieldsWellFormedTail(b);
      DeepMergeWellFormed(Put(a, f.key, v), b[1..]);
    }
  }

  /** Keys present before a deep merge keep their positions; only new keys are appended. */
  lemma DeepMergeKeepsOrder(a: seq<Field>, b: seq<Field>)
    ensures Keys(a) <= Keys(DeepMerge(a, b))
  {
    DeepMergeKeys(a, b);
  }

  /** A key that `b` does not hold keeps its value through the deep merge. */
  lemma {:induction false} DeepMergeElsewhere(a: seq<Field>, b: seq<Field>, k: Key)
    requires k !in Keys(b)
    ensures Get(DeepMerge(a, b), k) == Get(a, k)
    decreases b
  {
    if b != [] {
      var f := b[0];
      var old_val := Get(a, f.key);
      var v := if old_val.Some? && old_val.value.Hash? && f.val.Hash?
               then Hash(DeepMerge(old_val.value.fields, f.val.fields))
               else f.val;
      assert Keys(b[1..]) == Keys(b)[1..];
      DeepMergeElsewhere(Put(a, f.key, v), b[1..], k);
      PutGet(a, f.key, v, k);
    }
  }

  lemma PrefixTrans(a: seq<Key>, b: seq<Key>, c: seq<Key>)
    requires a <= b && b <= c
    ensures a <= c
  {
  }

  /** After `h.delete(k)` the key is gone. */
  lemma DeleteAbsent(fs: seq<Field>, k: Key)
    ensures k !in Keys(Delete(fs, k))
  {
    DeleteGet(fs, k, k);
    GetNone(Delete(fs, k), k);
  }

  lemma EntryOf(f: Field)
    ensures Entry(f.key, f.val) == f
  {
  }

  lemma DistinctSplit(ka: seq<Key>, x: Key, kb: seq<Key>)
    requires Distinct(ka + ([x] + kb))
    ensures x !in ka && Distinct((ka + [x]) + kb)
  {
    assert (ka + [x]) + kb == ka + ([x] + kb);
    var ks := ka + ([x] + kb);
    forall i | 0 <= i < |ka| ensures ka[i] != x {
      assert ks[i] == ka[i] && ks[|ka|] == x;
    }
  }

  /** Deep-merging keys the target does not hold appends the entries as they are, in order. */
  lemma DeepMergeFresh(a: seq<Field>, b: seq<Field>)
    requires Distinct(Keys(a) + Keys(b))
    ensures DeepMerge(a, b) == a + b
  {
    DistinctFresh(Keys(a), Keys(b));
    DeepMergeAppend(a, b);
  }

  /** Each key of `ls` is neither in `ks` nor earlier in `ls`. */
  predicate FreshKeys(ks: seq<Key>, ls: seq<Key>)
    decreases ls
  {
    ls == [] || (ls[0] !in ks && FreshKeys(ks + [ls[0]], ls[1..]))
  }

  lemma {:induction false} DistinctFresh(ks: seq<Key>, ls: seq<Key>)
    requires Distinct(ks + ls)
    ensures FreshKeys(ks, ls)
    decreases ls
  {
    if ls != [] {
      assert ls == [ls[0]] + ls[1..];
      DistinctSplit(ks, ls[0], ls[1..]);
      DistinctFresh(ks + [ls[0]], ls[1..]);
    }
  }

  lemma {:induction false} DeepMergeAppend(a: seq<Field>, b: seq<Field>)
    requires FreshKeys(Keys(a), Keys(b))
    ensures DeepMerge(a, b) == a + b
    decreases b
  {
    if b != [] {
      var a' := DeepMergeNew(a, b);
      DeepMergeAppend(a', b[1..]);
      FieldsAssoc(a, [b[0]], b[1..]);
      assert b == [b[0]] + b[1..];
    }
  }

  /** The first step of a deep merge whose first key the target does not hold appends that entry. */
  lemma DeepMergeNew(a: seq<Field>, b: seq<Field>) returns (a': seq<Field>)
    requires b != [] && FreshKeys(Keys(a), Keys(b))
    ensures a' == a + [b[0]] && FreshKeys(Keys(a'), Keys(b[1..]))
    ensures DeepMerge(a, b) == DeepMerge(a', b[1..])
  {
    var f := b[0];
    assert Keys(b) == [f.key] + Keys(b[1..]);
    GetNone(a, f.key);
    PutNew(a, f.key, f.val);
    EntryOf(f);
    a' := a + [f];
  }

  lemma FieldsAssoc(a: seq<Field>, b: seq<Field>, c: seq<Field>)
    ensures (a + b) + c == a + (b + c)
  {
  }

  /** Deleting a key that a leading run of keys does not hold leaves that run in place. */
  lemma {:induction false} DeleteKeepsPrefix(fs: seq<Field>, k: Key, p: seq<Key>)
    requires p <= Keys(fs) && k !in p
    ensures p <= Keys(Delete(fs, k))
    decreases fs
  {
    if p != [] {
      assert Keys(fs[1..]) == Keys(fs)[1..];
      DeleteKeepsPrefix(fs[1..], k, p[1..]);
    }
  }

  // ---------------------------------------------------------------------------
  // `to_json`

  function HexDigit(n: nat): char
    requires n < 16
  {
    if n < 10 then ('0' as int + n) as char else ('a' as int + n - 10) as char
  }

  /** The JSON escape of one character inside a string literal. */
  function EscapeChar(c: char): (r: string)
    ensures '\n' !in r
  {
    if c == '"' then "\\\""
    else if c == '\\' then "\\\\"
    else if c == '\n' then "\\n"
    else if c == '\r' then "\\r"
    else if c == '\t' then "\\t"
    else if c < ' ' then "\\u00" + [HexDigit(c as nat / 16), HexDigit(c as nat % 16)]
    else [c]
  }

  function Escape(s: string): (r: string)
    ensures '\n' !in r
  {
    if s == [] then [] else EscapeChar(s[0]) + Escape(s[1..])
  }

  function Quote(s: string): (r: string)
    ensures '\n' !in r
  {
    "\"" + Escape(s) + "\""
  }

  /** `to_json`: the serialised value is a single line, whatever the strings inside it hold. */
  function Render(v: Value): (r: string)
    ensures '\n' !in r
  {
    match v
    case Str(s) => Quote(s)
    case Sym(name) => Quote(name)
    case Atom(lit) => lit
    case Arr(items) => "[" + RenderItems(items) + "]"
    case Hash(fs) => "{" + RenderFields(fs) + "}"
  }

  function RenderItems(items: seq<Value>): (r: string)
    ensures '\n' !in r
  {
    if items == [] then ""
    else if |items| == 1 then Render(items[0])
    else Render(items[0]) + "," + RenderItems(items[1..])
  }

  function RenderFields(fs: seq<Field>): (r: string)
    ensures '\n' !in r
  {
    if fs == [] then ""
    else
      var entry := Quote(fs[0].key.name) + ":" + Render(fs[0].val);
      if |fs| == 1 then entry else entry + "," + RenderFields(fs[1..])
  }
}
