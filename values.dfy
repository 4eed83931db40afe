/** JSON-like Python values (dict, list, tuple, scalars) and dict/path access. */
module Values {
  import opened Wrappers

  /** A dict is an ordered list of entries, as Python dicts keep insertion order. */
  datatype Value =
    | VNull
    | VBool(b: bool)
    | VInt(i: int)
    | VStr(s: string)
    | VList(items: seq<Value>)
    | VTuple(elems: seq<Value>)
    | VDict(entries: seq<(string, Value)>)

  type Entries = seq<(string, Value)>

  function Keys(es: Entries): (ks: seq<string>)
    ensures |ks| == |es|
  {
    if es == [] then [] else [es[0].0] + Keys(es[1..])
  }

  /** The keys of a mapping are the first components of its entries, in order. */
  lemma {:induction false} KeysAt(es: Entries)
    ensures forall i :: 0 <= i < |es| ==> Keys(es)[i] == es[i].0
  {
    if es != [] {
      KeysAt(es[1..]);
      assert forall i :: 1 <= i < |es| ==> Keys(es)[i] == Keys(es[1..])[i - 1];
    }
  }

  /** Two mappings with the same key at every position have the same key list. */
  lemma SameKeys(a: Entries, b: Entries)
    requires |a| == |b| && forall i :: 0 <= i < |a| ==> a[i].0 == b[i].0
    ensures Keys(a) == Keys(b)
  {
    KeysAt(a);
    KeysAt(b);
  }

  ghost predicate DistinctKeys(es: Entries) {
    forall i, j :: 0 <= i < j < |es| ==> es[i].0 != es[j].0
  }

  /** `d.get(k)`: the value of the first entry with key k. */
  function Get(es: Entries, k: string): (r: Option<Value>)
    ensures r.None? <==> k !in Keys(es)
  {
    if es == [] then None
    else if es[0].0 == k then Some(es[0].1)
    else Get(es[1..], k)
  }

  /** What `d.get(k)` finds is the value of an entry with key k. */
  lemma {:induction false} GetFound(es: Entries, k: string)
    requires Get(es, k).Some?
    ensures exists i :: 0 <= i < |es| && es[i] == (k, Get(es, k).value)
  {
    if es[0].0 != k {
      GetFound(es[1..], k);
      var i :| 0 <= i < |es[1..]| && es[1..][i] == (k, Get(es, k).value);
      assert es[i + 1] == es[1..][i];
    }
  }

  /** `d[k] = v`: overwrite the entry in place, or append a new one. */
  function Set(es: Entries, k: string, v: Value): Entries
  {
    if es == [] then [(k, v)]
    else if es[0].0 == k then [(k, v)] + es[1..]
    else [es[0]] + Set(es[1..], k, v)
  }

  /** After `d[k] = v`, `d.get(k)` is v. */
  lemma {:induction false} SetGet(es: Entries, k: string, v: Value)
    ensures Get(Set(es, k, v), k) == Some(v)
  {
    if es != [] && es[0].0 != k {
      SetGet(es[1..], k, v);
      assert Set(es, k, v)[1..] == Set(es[1..], k, v);
    }
  }

  /** Setting a key keeps the key order: an existing key stays in place, a new one goes last. */
  lemma {:induction false} SetKeys(es: Entries, k: string, v: Value)
    ensures k in Keys(es) ==> Keys(Set(es, k, v)) == Keys(es)
    ensures k !in Keys(es) ==> Keys(Set(es, k, v)) == Keys(es) + [k]
  {
    if es == [] {
    } else if es[0].0 == k {
      assert Keys(es)[0] == k;
      assert Keys(Set(es, k, v)) == [k] + Keys(es[1..]);
    } else {
      var t := es[1..];
      SetKeys(t, k, v);
      var ks := Keys(es);
      assert ks == [es[0].0] + Keys(t);
      assert Keys(Set(es, k, v)) == [es[0].0] + Keys(Set(t, k, v));
      if k in Keys(t) {
        assert k in ks;
      } else {
        assert k !in ks;
        assert [es[0].0] + (Keys(t) + [k]) == ks + [k];
      }
    }
  }

  /** Setting one key leaves every other key's value as it was. */
  lemma {:induction false} SetOther(es: Entries, k: string, v: Value, j: string)
    requires j != k
    ensures Get(Set(es, k, v), j) == Get(es, j)
  {
    if es != [] && es[0].0 != k {
      SetOther(es[1..], k, v, j);
      assert Set(es, k, v)[1..] == Set(es[1..], k, v);
    }
  }

  /** Python truthiness. */
  predicate Truthy(v: Value) {
    match v
    case VNull => false
    case VBool(b) => b
    case VInt(i) => i != 0
    case VStr(s) => s != ""
    case VList(xs) => xs != []
    case VTuple(xs) => xs != []
    case VDict(es) => es != []
  }

  /** One step into a nested value: a list/tuple index or a dict key. */
  datatype Step = Index(i: nat) | Key(k: string)

  /** The value reached by following `path`, or None when a step is missing. */
  function At(v: Value, path: seq<Step>): Option<Value>
    decreases |path|
  {
    if path == [] then Some(v)
    else match (v, path[0])
      case (VList(xs), Index(i)) => if i < |xs| then At(xs[i], path[1..]) else None
      case (VTuple(xs), Index(i)) => if i < |xs| then At(xs[i], path[1..]) else None
      case (VDict(es), Key(k)) =>
        (match Get(es, k)
         case Some(w) => At(w, path[1..])
         case None => None)
      case _ => None
  }

  function KeySteps(keys: seq<string>): (p: seq<Step>)
    ensures |p| == |keys| && forall i :: 0 <= i < |keys| ==> p[i] == Key(keys[i])
  {
    if keys == [] then [] else [Key(keys[0])] + KeySteps(keys[1..])
  }

  /** Following `p + q` is following `p`, then `q` from where `p` ended. */
  lemma {:induction false} AtAppend(v: Value, p: seq<Step>, q: seq<Step>)
    ensures At(v, p + q) == match At(v, p) case Some(w) => At(w, q) case None => None
    decreases |p|
  {
    if p == [] {
      assert p + q == q;
    } else {
      assert (p + q)[0] == p[0] && (p + q)[1..] == p[1..] + q;
      match (v, p[0])
      case (VList(xs), Index(i)) => if i < |xs| { AtAppend(xs[i], p[1..], q); }
      case (VTuple(xs), Index(i)) => if i < |xs| { AtAppend(xs[i], p[1..], q); }
      case (VDict(es), Key(k)) =>
        if Get(es, k).Some? { AtAppend(Get(es, k).value, p[1..], q); }
      case _ =>
    }
  }

  lemma KeyStepsSplit(keys: seq<string>, j: nat)
    requires j <= |keys|
    ensures KeySteps(keys) == KeySteps(keys[..j]) + KeySteps(keys[j..])
  {
    var p, q := KeySteps(keys[..j]), KeySteps(keys[j..]);
    assert forall i :: 0 <= i < |keys| ==> (p + q)[i] == Key(keys[i]);
  }

  /** A key the dict reached so far has extends the path by one step, to that key's value. */
  lemma KeyPathStep(v: Value, keys: seq<string>, i: nat, w: Value)
    requires i < |keys| && At(v, KeySteps(keys[..i])) == Some(w)
    requires w.VDict? && keys[i] in Keys(w.entries)
    ensures At(v, KeySteps(keys[..i + 1])) == Get(w.entries, keys[i])
  {
    KeyStepsSplit(keys[..i + 1], i);
    assert keys[..i + 1][..i] == keys[..i];
    var q := KeySteps(keys[..i + 1][i..]);
    assert q == [Key(keys[i])];
    AtAppend(v, KeySteps(keys[..i]), q);
    assert q[1..] == [];
  }

  /** A key step out of a non-dict, or to a key the dict lacks, finds nothing. */
  lemma KeyStepMissing(w: Value, k: string, rest: seq<Step>)
    requires !w.VDict? || k !in Keys(w.entries)
    ensures At(w, [Key(k)] + rest) == None
  {
    assert ([Key(k)] + rest)[0] == Key(k);
  }

  /** A key path stops at the first key that is absent or lands on a non-dict. */
  lemma {:induction false} KeyPathMissing(v: Value, keys: seq<string>, j: nat)
    requires j < |keys|
    requires At(v, KeySteps(keys[..j])).Some?
    requires var w := At(v, KeySteps(keys[..j])).value; !w.VDict? || keys[j] !in Keys(w.entries)
    ensures At(v, KeySteps(keys)) == None
  {
    var p, q := KeySteps(keys[..j]), KeySteps(keys[j..]);
    KeyStepsSplit(keys, j);
    AtAppend(v, p, q);
    assert q == [Key(keys[j])] + q[1..];
    KeyStepMissing(At(v, p).value, keys[j], q[1..]);
  }

  /** The entries of a dict with every value passed through f, keys and order unchanged. */
  function MapValues(es: Entries, f: Value -> Value): (r: Entries)
    ensures |r| == |es| && forall i :: 0 <= i < |es| ==> r[i] == (es[i].0, f(es[i].1))
  {
    seq(|es|, i requires 0 <= i < |es| => (es[i].0, f(es[i].1)))
  }

  /** Looking up a key in mapped entries is looking it up and mapping the value. */
  lemma {:induction false} GetMapValues(es: Entries, f: Value -> Value, k: string)
    ensures Get(MapValues(es, f), k) == match Get(es, k) case Some(w) => Some(f(w)) case None => None
  {
    if es != [] && es[0].0 != k {
      GetMapValues(es[1..], f, k);
      assert MapValues(es, f)[1..] == MapValues(es[1..], f);
    }
  }

  /** b has the shape of a: containers of the same kind and size (dicts with the same keys
      in the same order), strings where a has strings, and every other leaf unchanged. */
  ghost predicate SameShape(a: Value, b: Value) {
    match a
    case VList(xs) =>
      b.VList? && |b.items| == |xs| && forall i :: 0 <= i < |xs| ==> SameShape(xs[i], b.items[i])
    case VTuple(xs) =>
      b.VTuple? && |b.elems| == |xs| && forall i :: 0 <= i < |xs| ==> SameShape(xs[i], b.elems[i])
    case VDict(es) =>
      b.VDict? && Keys(b.entries) == Keys(es) &&
      forall i :: 0 <= i < |es| ==> SameShape(es[i].1, b.entries[i].1)
    case VStr(_) => b.VStr?
    case _ => b == a
  }
}
