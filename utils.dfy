/** utils.py: lenient placeholder injection, Cookie header assembly, nested dict lookup. */
module Utils {
  import opened Wrappers
  import opened Values
  import opened Env
  import opened Text

  // ---------------------------------------------------------------------------
  // deep_inject_env
  // ---------------------------------------------------------------------------

  /** Replace every string that is exactly `${NAME}` by the value of NAME, descending
      into dicts, lists and tuples; an unset NAME leaves the placeholder as it is. */
  function DeepInjectEnv(v: Value, env: Environment): Value
  {
    match v
    case VDict(es) => VDict(seq(|es|, i requires 0 <= i < |es| => (es[i].0, DeepInjectEnv(es[i].1, env))))
    case VList(xs) => VList(seq(|xs|, i requires 0 <= i < |xs| => DeepInjectEnv(xs[i], env)))
    case VTuple(xs) => VTuple(seq(|xs|, i requires 0 <= i < |xs| => DeepInjectEnv(xs[i], env)))
    case VStr(s) => if IsPlaceholder(s) then VStr(GetEnv(env, PlaceholderName(s)).GetOr(s)) else v
    case _ => v
  }

  /** What injection does to one string leaf. */
  function InjectedString(s: string, env: Environment): string {
    if IsPlaceholder(s) && PlaceholderName(s) in env then env[PlaceholderName(s)] else s
  }

  /** Injection keeps the shape: same containers, same keys, same lengths, other leaves unchanged. */
  lemma {:induction false} InjectPreservesShape(v: Value, env: Environment)
    ensures SameShape(v, DeepInjectEnv(v, env))
  {
    match v
    case VDict(es) =>
      var r := DeepInjectEnv(v, env).entries;
      SameKeys(es, r);
      forall i | 0 <= i < |es| ensures SameShape(es[i].1, r[i].1) { InjectPreservesShape(es[i].1, env); }
    case VList(xs) =>
      forall i | 0 <= i < |xs| ensures SameShape(xs[i], DeepInjectEnv(v, env).items[i]) {
        InjectPreservesShape(xs[i], env);
      }
    case VTuple(xs) =>
      forall i | 0 <= i < |xs| ensures SameShape(xs[i], DeepInjectEnv(v, env).elems[i]) {
        InjectPreservesShape(xs[i], env);
      }
    case _ =>
  }

  /** Injection commutes with navigation: whatever sits at a path of v, its injection sits at
      the same path of the result, and the result has nothing where v has nothing. So every
      string leaf at any depth, inside dicts, lists or tuples, is resolved. */
  lemma {:induction false} InjectAt(v: Value, env: Environment, p: seq<Step>)
    ensures At(DeepInjectEnv(v, env), p) ==
            match At(v, p) case Some(w) => Some(DeepInjectEnv(w, env)) case None => None
    decreases |p|
  {
    if p != [] {
      var r := DeepInjectEnv(v, env);
      match (v, p[0])
      case (VList(xs), Index(i)) => if i < |xs| { InjectAt(xs[i], env, p[1..]); }
      case (VTuple(xs), Index(i)) => if i < |xs| { InjectAt(xs[i], env, p[1..]); }
      case (VDict(es), Key(k)) =>
        var f := (w: Value) => DeepInjectEnv(w, env);
        assert r.entries == MapValues(es, f);
        GetMapValues(es, f, k);
        if Get(es, k).Some? { InjectAt(Get(es, k).value, env, p[1..]); }
      case _ =>
    }
  }

  /** A string leaf anywhere in v becomes its injected string. */
  lemma InjectLeaf(v: Value, env: Environment, p: seq<Step>, s: string)
    requires At(v, p) == Some(VStr(s))
    ensures At(DeepInjectEnv(v, env), p) == Some(VStr(InjectedString(s, env)))
  {
    InjectAt(v, env, p);
  }

  /** No placeholder in v names a variable that is set. */
  ghost predicate NoneSet(v: Value, env: Environment) {
    match v
    case VStr(s) => IsPlaceholder(s) ==> PlaceholderName(s) !in env
    case VList(xs) => forall i :: 0 <= i < |xs| ==> NoneSet(xs[i], env)
    case VTuple(xs) => forall i :: 0 <= i < |xs| ==> NoneSet(xs[i], env)
    case VDict(es) => forall i :: 0 <= i < |es| ==> NoneSet(es[i].1, env)
    case _ => true
  }

  /** Lenient policy: when no placeholder's variable is set, nothing changes. */
  lemma {:induction false} LenientUnsetIdentity(v: Value, env: Environment)
    requires NoneSet(v, env)
    ensures DeepInjectEnv(v, env) == v
  {
    match v
    case VDict(es) =>
      forall i | 0 <= i < |es| ensures DeepInjectEnv(es[i].1, env) == es[i].1 { LenientUnsetIdentity(es[i].1, env); }
      assert DeepInjectEnv(v, env).entries == es;
    case VList(xs) =>
      forall i | 0 <= i < |xs| ensures DeepInjectEnv(xs[i], env) == xs[i] { LenientUnsetIdentity(xs[i], env); }
      assert DeepInjectEnv(v, env).items == xs;
    case VTuple(xs) =>
      forall i | 0 <= i < |xs| ensures DeepInjectEnv(xs[i], env) == xs[i] { LenientUnsetIdentity(xs[i], env); }
      assert DeepInjectEnv(v, env).elems == xs;
    case _ =>
  }

  // ---------------------------------------------------------------------------
  // build_cookie_header
  // ---------------------------------------------------------------------------

  /** The cookie_pairs dict: names in insertion order, None for a Python None value. */
  type CookiePairs = seq<(string, Option<string>)>

  function CookieNames(pairs: CookiePairs): (ns: seq<string>)
    ensures |ns| == |pairs| && forall i :: 0 <= i < |pairs| ==> ns[i] == pairs[i].0
  {
    seq(|pairs|, i requires 0 <= i < |pairs| => pairs[i].0)
  }

  /** `cookie_pairs.get(key)`: None when absent or None-valued. */
  function CookieGet(pairs: CookiePairs, key: string): (r: Option<string>)
    ensures r.Some? ==> exists i :: 0 <= i < |pairs| && pairs[i] == (key, r)
  {
    if pairs == [] then None
    else if pairs[0].0 == key then pairs[0].1
    else CookieGet(pairs[1..], key)
  }

  predicate TruthyCookie(o: Option<string>) {
    o.Some? && o.value != ""
  }

  /** First loop: the preferred keys, in their order, that have a non-empty value. */
  function PreferredEntries(pairs: CookiePairs, preferred: seq<string>): seq<(string, string)>
  {
    if preferred == [] then []
    else
      var k := preferred[|preferred| - 1];
      var o := CookieGet(pairs, k);
      PreferredEntries(pairs, preferred[..|preferred| - 1]) + (if TruthyCookie(o) then [(k, o.value)] else [])
  }

  /** The `used` set after the first loop. */
  function UsedKeys(pairs: CookiePairs, preferred: seq<string>): set<string>
  {
    set i | 0 <= i < |preferred| && TruthyCookie(CookieGet(pairs, preferred[i])) :: preferred[i]
  }

  /** Second loop: every other pair whose value is not None, in insertion order. */
  function TailEntries(pairs: CookiePairs, used: set<string>): seq<(string, string)>
  {
    if pairs == [] then []
    else
      var (k, o) := pairs[|pairs| - 1];
      TailEntries(pairs[..|pairs| - 1], used) + (if k in used || o.None? then [] else [(k, o.value)])
  }

  function CookieEntries(pairs: CookiePairs, preferred: seq<string>): seq<(string, string)> {
    PreferredEntries(pairs, preferred) + TailEntries(pairs, UsedKeys(pairs, preferred))
  }

  function Render(es: seq<(string, string)>): (r: seq<string>)
    ensures |r| == |es| && forall i :: 0 <= i < |es| ==> r[i] == es[i].0 + "=" + es[i].1
  {
    seq(|es|, i requires 0 <= i < |es| => es[i].0 + "=" + es[i].1)
  }

  lemma RenderAppend(a: seq<(string, string)>, b: seq<(string, string)>)
    ensures Render(a + b) == Render(a) + Render(b)
  {
  }

  /** The Cookie header: `key=value` pairs, preferred keys first, joined by "; ". */
  method BuildCookieHeader(pairs: CookiePairs, preferred: seq<string>) returns (header: string)
    ensures header == Join(Render(CookieEntries(pairs, preferred)), "; ")
  {
    var ordered: seq<string> := [];
    var used: set<string> := {};
    var i := 0;
    while i < |preferred|
      invariant 0 <= i <= |preferred|
      invariant ordered == Render(PreferredEntries(pairs, preferred[..i]))
      invariant used == UsedKeys(pairs, preferred[..i])
    {
      var key := preferred[i];
      var value := CookieGet(pairs, key);
      ghost var ordered0, used0 := ordered, used;
      if TruthyCookie(value) {
        ordered := ordered + [key + "=" + value.value];
        used := used + {key};
      }
      PreferredStep(pairs, preferred, i, ordered0, used0, ordered, used);
      i := i + 1;
    }
    assert preferred[..i] == preferred;
    ghost var front := PreferredEntries(pairs, preferred);
    var j := 0;
    while j < |pairs|
      invariant 0 <= j <= |pairs|
      invariant ordered == Render(front) + Render(TailEntries(pairs[..j], used))
    {
      var (key, value) := pairs[j];
      ghost var ordered0 := ordered;
      if !(key in used || value.None?) {
        ordered := ordered + [key + "=" + value.value];
      }
      TailStep(pairs, used, j, front, ordered0, ordered);
      j := j + 1;
    }
    assert pairs[..j] == pairs;
    RenderAppend(front, TailEntries(pairs, used));
    header := Join(ordered, "; ");
  }

  /** One more preferred key taken by the first loop. */
  lemma PreferredStep(pairs: CookiePairs, preferred: seq<string>, i: nat, ordered: seq<string>, used: set<string>,
                      ordered': seq<string>, used': set<string>)
    requires i < |preferred|
    requires ordered == Render(PreferredEntries(pairs, preferred[..i])) && used == UsedKeys(pairs, preferred[..i])
    requires var o := CookieGet(pairs, preferred[i]);
      if TruthyCookie(o) then ordered' == ordered + [preferred[i] + "=" + o.value] && used' == used + {preferred[i]}
      else ordered' == ordered && used' == used
    ensures ordered' == Render(PreferredEntries(pairs, preferred[..i + 1]))
    ensures used' == UsedKeys(pairs, preferred[..i + 1])
  {
    var q := preferred[..i + 1];
    assert q[..|q| - 1] == preferred[..i] && q[|q| - 1] == preferred[i];
    var o := CookieGet(pairs, preferred[i]);
    if TruthyCookie(o) {
      RenderAppend(PreferredEntries(pairs, preferred[..i]), [(preferred[i], o.value)]);
    }
    UsedKeysSnoc(pairs, q);
  }

  lemma UsedKeysSnoc(pairs: CookiePairs, q: seq<string>)
    requires q != []
    ensures UsedKeys(pairs, q) ==
              UsedKeys(pairs, q[..|q| - 1]) + (if TruthyCookie(CookieGet(pairs, q[|q| - 1])) then {q[|q| - 1]} else {})
  {
    var p := q[..|q| - 1];
    assert forall k :: 0 <= k < |p| ==> p[k] == q[k];
  }

  /** One more pair taken by the second loop. */
  lemma TailStep(pairs: CookiePairs, used: set<string>, j: nat, front: seq<(string, string)>,
                 ordered: seq<string>, ordered': seq<string>)
    requires j < |pairs| && ordered == Render(front) + Render(TailEntries(pairs[..j], used))
    requires if pairs[j].0 in used || pairs[j].1.None? then ordered' == ordered
             else ordered' == ordered + [pairs[j].0 + "=" + pairs[j].1.value]
    ensures ordered' == Render(front) + Render(TailEntries(pairs[..j + 1], used))
  {
    var q := pairs[..j + 1];
    assert q[..|q| - 1] == pairs[..j] && q[|q| - 1] == pairs[j];
    if !(pairs[j].0 in used || pairs[j].1.None?) {
      RenderAppend(TailEntries(pairs[..j], used), [(pairs[j].0, pairs[j].1.value)]);
    }
  }

  ghost predicate DistinctNames(pairs: CookiePairs) {
    forall i, j :: 0 <= i < j < |pairs| ==> pairs[i].0 != pairs[j].0
  }

  ghost predicate DistinctStrings(ks: seq<string>) {
    forall i, j :: 0 <= i < j < |ks| ==> ks[i] != ks[j]
  }

  function EntryKeys(es: seq<(string, string)>): (ks: seq<string>)
    ensures |ks| == |es| && forall i :: 0 <= i < |es| ==> ks[i] == es[i].0
  {
    seq(|es|, i requires 0 <= i < |es| => es[i].0)
  }

  lemma {:induction false} CookieGetDistinct(pairs: CookiePairs, i: nat)
    requires DistinctNames(pairs) && i < |pairs|
    ensures CookieGet(pairs, pairs[i].0) == pairs[i].1
  {
    if i > 0 {
      assert pairs[0].0 != pairs[i].0;
      assert pairs[1..][i - 1] == pairs[i];
      CookieGetDistinct(pairs[1..], i - 1);
    }
  }

  /** A front entry is a preferred key, listed with its (non-empty) value. */
  lemma {:induction false} PreferredEntryFacts(pairs: CookiePairs, preferred: seq<string>, j: nat)
    requires j < |PreferredEntries(pairs, preferred)|
    ensures var e := PreferredEntries(pairs, preferred)[j];
      e.0 in preferred && e.1 != "" && CookieGet(pairs, e.0) == Some(e.1)
    decreases |preferred|
  {
    var p := preferred[..|preferred| - 1];
    var front := PreferredEntries(pairs, p);
    if j < |front| {
      PreferredEntryFacts(pairs, p, j);
      assert front[j] == PreferredEntries(pairs, preferred)[j];
    }
  }

  /** A preferred key comes first exactly when its value is non-empty. */
  lemma {:induction false} PreferredKeysAre(pairs: CookiePairs, preferred: seq<string>, k: string)
    ensures k in EntryKeys(PreferredEntries(pairs, preferred)) <==> k in UsedKeys(pairs, preferred)
    decreases |preferred|
  {
    if preferred != [] {
      var p := preferred[..|preferred| - 1];
      var last := preferred[|preferred| - 1];
      PreferredKeysAre(pairs, p, k);
      assert preferred == p + [last];
      assert UsedKeys(pairs, preferred) == UsedKeys(pairs, p) + (if TruthyCookie(CookieGet(pairs, last)) then {last} else {}) by {
        forall x | x in UsedKeys(pairs, preferred) ensures x in UsedKeys(pairs, p) || (x == last && TruthyCookie(CookieGet(pairs, last))) {
          var i :| 0 <= i < |preferred| && TruthyCookie(CookieGet(pairs, preferred[i])) && preferred[i] == x;
          if i < |p| { assert p[i] == x; }
        }
        forall x | x in UsedKeys(pairs, p) ensures x in UsedKeys(pairs, preferred) {
          var i :| 0 <= i < |p| && TruthyCookie(CookieGet(pairs, p[i])) && p[i] == x;
          assert preferred[i] == x;
        }
      }
      var front := PreferredEntries(pairs, p);
      var added := if TruthyCookie(CookieGet(pairs, last)) then [(last, CookieGet(pairs, last).value)] else [];
      assert EntryKeys(front + added) == EntryKeys(front) + EntryKeys(added);
    }
  }

  /** A tail entry is a pair outside `used` whose value is not None, and every such pair is one. */
  lemma {:induction false} TailEntryIff(pairs: CookiePairs, used: set<string>, k: string, v: string)
    ensures (k, v) in TailEntries(pairs, used) <==> (k !in used && (k, Some(v)) in pairs)
  {
    if pairs != [] {
      var p := pairs[..|pairs| - 1];
      var (lk, lo) := pairs[|pairs| - 1];
      TailEntryIff(p, used, k, v);
      assert pairs == p + [(lk, lo)];
      var added := if lk in used || lo.None? then [] else [(lk, lo.value)];
      assert TailEntries(pairs, used) == TailEntries(p, used) + added;
      assert (k, Some(v)) in pairs <==> (k, Some(v)) in p || (k, Some(v)) == (lk, lo);
    }
  }

  lemma {:induction false} TailKeysDistinct(pairs: CookiePairs, used: set<string>)
    requires DistinctNames(pairs)
    ensures DistinctStrings(EntryKeys(TailEntries(pairs, used)))
    ensures forall j :: 0 <= j < |TailEntries(pairs, used)| ==> TailEntries(pairs, used)[j].0 !in used
  {
    if pairs != [] {
      var p := pairs[..|pairs| - 1];
      var (k, o) := pairs[|pairs| - 1];
      TailKeysDistinct(p, used);
      var t := TailEntries(p, used);
      forall j | 0 <= j < |t| ensures t[j].0 != k {
        TailEntryIff(p, used, t[j].0, t[j].1);
        var i :| 0 <= i < |p| && p[i] == (t[j].0, Some(t[j].1));
        assert pairs[i] == p[i];
      }
    }
  }

  lemma {:induction false} PreferredKeysDistinct(pairs: CookiePairs, preferred: seq<string>)
    requires DistinctStrings(preferred)
    ensures DistinctStrings(EntryKeys(PreferredEntries(pairs, preferred)))
    decreases |preferred|
  {
    if preferred != [] {
      var p := preferred[..|preferred| - 1];
      var last := preferred[|preferred| - 1];
      PreferredKeysDistinct(pairs, p);
      var front := PreferredEntries(pairs, p);
      forall j | 0 <= j < |front| ensures front[j].0 != last {
        PreferredEntryFacts(pairs, p, j);
        var i :| 0 <= i < |p| && p[i] == front[j].0;
        assert preferred[i] == p[i];
      }
    }
  }

  /** Every cookie whose value is not None is emitted, with its value. */
  lemma CookieComplete(pairs: CookiePairs, preferred: seq<string>, i: nat)
    requires DistinctNames(pairs) && i < |pairs| && pairs[i].1.Some?
    ensures (pairs[i].0, pairs[i].1.value) in CookieEntries(pairs, preferred)
  {
    var (k, o) := pairs[i];
    var used := UsedKeys(pairs, preferred);
    if k in used {
      PreferredKeysAre(pairs, preferred, k);
      var front := PreferredEntries(pairs, preferred);
      var j :| 0 <= j < |front| && EntryKeys(front)[j] == k;
      PreferredEntryFacts(pairs, preferred, j);
      CookieGetDistinct(pairs, i);
      assert front[j] == (k, o.value);
    } else {
      TailEntryIff(pairs, used, k, o.value);
    }
  }

  /** A None-valued cookie is never emitted, under any key order. */
  lemma CookieNoneOmitted(pairs: CookiePairs, preferred: seq<string>, i: nat)
    requires DistinctNames(pairs) && i < |pairs| && pairs[i].1.None?
    ensures pairs[i].0 !in EntryKeys(CookieEntries(pairs, preferred))
  {
    var k := pairs[i].0;
    var front := PreferredEntries(pairs, preferred);
    var used := UsedKeys(pairs, preferred);
    var tail := TailEntries(pairs, used);
    var all := CookieEntries(pairs, preferred);
    forall j | 0 <= j < |all| ensures all[j].0 != k {
      if j < |front| {
        PreferredEntryFacts(pairs, preferred, j);
        if front[j].0 == k { CookieGetDistinct(pairs, i); }
      } else {
        var e := tail[j - |front|];
        assert all[j] == e;
        TailEntryIff(pairs, used, e.0, e.1);
        var m :| 0 <= m < |pairs| && pairs[m] == (e.0, Some(e.1));
      }
    }
  }

  /** A preferred key with an empty value is not put in front but still follows in the tail. */
  lemma CookieEmptyPreferredInTail(pairs: CookiePairs, preferred: seq<string>, i: nat)
    requires DistinctNames(pairs) && i < |pairs| && pairs[i].1 == Some("")
    ensures pairs[i].0 !in EntryKeys(PreferredEntries(pairs, preferred))
    ensures (pairs[i].0, "") in TailEntries(pairs, UsedKeys(pairs, preferred))
  {
    var k := pairs[i].0;
    CookieGetDistinct(pairs, i);
    PreferredKeysAre(pairs, preferred, k);
    TailEntryIff(pairs, UsedKeys(pairs, preferred), k, "");
  }

  /** With distinct preferred keys no key appears twice in the header. */
  lemma CookieNoDuplicateKeys(pairs: CookiePairs, preferred: seq<string>)
    requires DistinctNames(pairs) && DistinctStrings(preferred)
    ensures DistinctStrings(EntryKeys(CookieEntries(pairs, preferred)))
  {
    var front := PreferredEntries(pairs, preferred);
    var used := UsedKeys(pairs, preferred);
    var tail := TailEntries(pairs, used);
    var all := CookieEntries(pairs, preferred);
    PreferredKeysDistinct(pairs, preferred);
    TailKeysDistinct(pairs, used);
    forall a, b | 0 <= a < b < |all| ensures all[a].0 != all[b].0 {
      if b < |front| {
        assert EntryKeys(front)[a] == all[a].0 && EntryKeys(front)[b] == all[b].0;
      } else if a >= |front| {
        assert EntryKeys(tail)[a - |front|] == all[a].0 && EntryKeys(tail)[b - |front|] == all[b].0;
      } else {
        assert tail[b - |front|] == all[b];
        PreferredKeysAre(pairs, preferred, all[a].0);
        assert EntryKeys(front)[a] == all[a].0;
      }
    }
  }

  /** The example of the test suite: preferred keys A and C first, then B. */
  lemma CookieHeaderExample()
    ensures Join(Render(CookieEntries([("B", Some("2")), ("A", Some("1")), ("C", Some("3"))], ["A", "C"])), "; ")
            == "A=1; C=3; B=2"
  {
    var pairs: CookiePairs := [("B", Some("2")), ("A", Some("1")), ("C", Some("3"))];
    ExampleEntries(pairs, ["A", "C"]);
    ExampleRender(CookieEntries(pairs, ["A", "C"]));
  }

  lemma ExampleEntries(pairs: CookiePairs, preferred: seq<string>)
    requires pairs == [("B", Some("2")), ("A", Some("1")), ("C", Some("3"))] && preferred == ["A", "C"]
    ensures CookieEntries(pairs, preferred) == [("A", "1"), ("C", "3"), ("B", "2")]
  {
    ExamplePreferred(pairs);
    ExampleUsed(pairs);
    ExampleTail(pairs);
    assert CookieEntries(pairs, preferred) == [("A", "1"), ("C", "3")] + [("B", "2")];
  }

  lemma ExampleRender(es: seq<(string, string)>)
    requires es == [("A", "1"), ("C", "3"), ("B", "2")]
    ensures Join(Render(es), "; ") == "A=1; C=3; B=2"
  {
    var rs := Render(es);
    assert rs[0] == "A=1" && rs[1] == "C=3" && rs[2] == "B=2";
    assert rs == ["A=1", "C=3", "B=2"];
    assert rs[1..] == ["C=3", "B=2"] && rs[1..][1..] == ["B=2"];
    assert Join(rs[1..], "; ") == "C=3" + "; " + "B=2";
    assert Join(rs, "; ") == "A=1" + "; " + "C=3; B=2";
  }

  lemma ExamplePreferred(pairs: CookiePairs)
    requires pairs == [("B", Some("2")), ("A", Some("1")), ("C", Some("3"))]
    ensures PreferredEntries(pairs, ["A", "C"]) == [("A", "1"), ("C", "3")]
  {
    var preferred := ["A", "C"];
    assert preferred[..1] == ["A"] && preferred[..1][..0] == [];
    ExampleGets(pairs);
    assert PreferredEntries(pairs, ["A"]) == [("A", "1")];
  }

  lemma ExampleGets(pairs: CookiePairs)
    requires pairs == [("B", Some("2")), ("A", Some("1")), ("C", Some("3"))]
    ensures CookieGet(pairs, "A") == Some("1") && CookieGet(pairs, "C") == Some("3")
  {
    assert pairs[1..] == [("A", Some("1")), ("C", Some("3"))];
    assert pairs[1..][1..] == [("C", Some("3"))];
    assert CookieGet(pairs[1..][1..], "C") == Some("3");
    assert CookieGet(pairs[1..], "C") == Some("3");
    assert CookieGet(pairs[1..], "A") == Some("1");
  }

  lemma ExampleUsed(pairs: CookiePairs)
    requires pairs == [("B", Some("2")), ("A", Some("1")), ("C", Some("3"))]
    ensures UsedKeys(pairs, ["A", "C"]) == {"A", "C"}
  {
    var preferred := ["A", "C"];
    assert preferred[0] == "A" && preferred[1] == "C";
    ExampleGets(pairs);
  }

  lemma ExampleTail(pairs: CookiePairs)
    requires pairs == [("B", Some("2")), ("A", Some("1")), ("C", Some("3"))]
    ensures TailEntries(pairs, {"A", "C"}) == [("B", "2")]
  {
    var used := {"A", "C"};
    assert pairs[..2][..1] == pairs[..1] && pairs[..1][..0] == [] && pairs[..3] == pairs;
    assert TailEntries(pairs[..1], used) == [("B", "2")];
    assert TailEntries(pairs[..2], used) == [("B", "2")];
  }

  // ---------------------------------------------------------------------------
  // get_nested_value
  // ---------------------------------------------------------------------------

  /** Follow `path` key by key; None as soon as a key is missing or a step is not a dict. */
  method GetNestedValue(payload: Value, path: seq<string>) returns (r: Option<Value>)
    ensures r == At(payload, KeySteps(path))
  {
    var current := payload;
    var i := 0;
    while i < |path|
      invariant 0 <= i <= |path|
      invariant At(payload, KeySteps(path[..i])) == Some(current)
    {
      var key := path[i];
      if current.VDict? && key in Keys(current.entries) {
        var next := Get(current.entries, key).value;
        KeyPathStep(payload, path, i, current);
        current := next;
      } else {
        KeyPathMissing(payload, path, i);
        return None;
      }
      i := i + 1;
    }
    assert path[..i] == path;
    r := Some(current);
  }
}
