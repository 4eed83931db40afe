/** Order-preserving, keep-first deduplication by a key: the shared meaning of the
    seen-set loop in filter_codes_for_day and of pandas' drop_duplicates(keep="first"). */
module Dedup {

  function KeySet<T, K(==)>(s: seq<T>, key: T -> K): set<K> {
    set i | 0 <= i < |s| :: key(s[i])
  }

  ghost predicate NoDupKeys<T, K>(s: seq<T>, key: T -> K) {
    forall i, j :: 0 <= i < j < |s| ==> key(s[i]) != key(s[j])
  }

  /** Scan left to right, keeping an element only when its key has not been seen. */
  function DedupBy<T, K(==)>(s: seq<T>, key: T -> K): seq<T>
  {
    if s == [] then []
    else
      var d := DedupBy(s[..|s| - 1], key);
      if key(s[|s| - 1]) in KeySet(d, key) then d else d + [s[|s| - 1]]
  }

  /** The first occurrences of each key, in input order: an element is kept exactly when
      its key does not occur earlier in the input. */
  ghost function FirstOccurrences<T, K>(s: seq<T>, key: T -> K): seq<T>
  {
    if s == [] then []
    else
      var p := s[..|s| - 1];
      FirstOccurrences(p, key) + (if key(s[|s| - 1]) in (set i | 0 <= i < |p| :: key(p[i])) then [] else [s[|s| - 1]])
  }

  /** a is a subsequence of b: a is b with some elements left out, order kept. */
  ghost predicate SubseqOf<T>(a: seq<T>, b: seq<T>)
    decreases |b|
  {
    a == [] ||
    (b != [] &&
     ((a[|a| - 1] == b[|b| - 1] && SubseqOf(a[..|a| - 1], b[..|b| - 1])) || SubseqOf(a, b[..|b| - 1])))
  }

  lemma KeySetSnoc<T, K>(s: seq<T>, x: T, key: T -> K)
    ensures KeySet(s + [x], key) == KeySet(s, key) + {key(x)}
  {
    var t := s + [x];
    assert forall i :: 0 <= i < |s| ==> t[i] == s[i];
    assert t[|s|] == x;
  }

  lemma KeySetAppend<T, K>(a: seq<T>, b: seq<T>, key: T -> K)
    ensures KeySet(a + b, key) == KeySet(a, key) + KeySet(b, key)
  {
    var t := a + b;
    assert forall i :: 0 <= i < |a| ==> t[i] == a[i];
    assert forall i :: 0 <= i < |b| ==> t[|a| + i] == b[i];
    forall k | k in KeySet(t, key) ensures k in KeySet(a, key) + KeySet(b, key) {
      var i :| 0 <= i < |t| && key(t[i]) == k;
      if i >= |a| { assert key(b[i - |a|]) == k; }
    }
  }

  /** Deduplication keeps every key and adds none. */
  lemma {:induction false} DedupKeySet<T, K>(s: seq<T>, key: T -> K)
    ensures KeySet(DedupBy(s, key), key) == KeySet(s, key)
  {
    if s != [] {
      var p, x := s[..|s| - 1], s[|s| - 1];
      assert s == p + [x];
      DedupKeySet(p, key);
      KeySetSnoc(p, x, key);
      KeySetSnoc(DedupBy(p, key), x, key);
    }
  }

  /** No two kept elements share a key. */
  lemma {:induction false} DedupNoDup<T, K>(s: seq<T>, key: T -> K)
    ensures NoDupKeys(DedupBy(s, key), key)
  {
    if s != [] {
      var p, x := s[..|s| - 1], s[|s| - 1];
      var d := DedupBy(p, key);
      DedupNoDup(p, key);
      if key(x) !in KeySet(d, key) {
        var e := d + [x];
        forall i, j | 0 <= i < j < |e| ensures key(e[i]) != key(e[j]) {
          if j == |d| { assert key(e[i]) == key(d[i]); assert key(d[i]) in KeySet(d, key); }
        }
      }
    }
  }

  lemma {:induction false} SubseqOfSnoc<T>(a: seq<T>, b: seq<T>, x: T)
    requires SubseqOf(a, b)
    ensures SubseqOf(a, b + [x])
  {
    assert (b + [x])[..|b|] == b;
  }

  lemma {:induction false} SubseqOfRefl<T>(a: seq<T>)
    ensures SubseqOf(a, a)
  {
    if a != [] {
      SubseqOfRefl(a[..|a| - 1]);
    }
  }

  lemma {:induction false} SubseqOfTrans<T>(a: seq<T>, b: seq<T>, c: seq<T>)
    requires SubseqOf(a, b) && SubseqOf(b, c)
    ensures SubseqOf(a, c)
    decreases |c|
  {
    if a != [] {
      var c' := c[..|c| - 1];
      if SubseqOf(b, c') {
        SubseqOfTrans(a, b, c');
      } else {
        var b' := b[..|b| - 1];
        if a[|a| - 1] == b[|b| - 1] && SubseqOf(a[..|a| - 1], b') {
          SubseqOfTrans(a[..|a| - 1], b', c');
        } else {
          SubseqOfTrans(a, b', c');
        }
      }
    }
  }

  /** The kept elements appear in the input in the same relative order. */
  lemma {:induction false} DedupIsSubseq<T, K>(s: seq<T>, key: T -> K)
    ensures SubseqOf(DedupBy(s, key), s)
  {
    if s != [] {
      var p, x := s[..|s| - 1], s[|s| - 1];
      var d := DedupBy(p, key);
      DedupIsSubseq(p, key);
      assert s == p + [x];
      if key(x) in KeySet(d, key) {
        SubseqOfSnoc(d, p, x);
      } else {
        var e := d + [x];
        assert e[..|e| - 1] == d && e[|e| - 1] == x;
      }
    }
  }

  /** The first element carrying a key is the one kept for that key. */
  lemma {:induction false} DedupKeepsFirst<T, K>(s: seq<T>, key: T -> K, i: nat)
    requires i < |s| && key(s[i]) !in KeySet(s[..i], key)
    ensures s[i] in DedupBy(s, key)
    decreases |s|
  {
    var p, x := s[..|s| - 1], s[|s| - 1];
    if i == |s| - 1 {
      assert p == s[..i];
      DedupKeySet(p, key);
    } else {
      assert p[..i] == s[..i] && p[i] == s[i];
      DedupKeepsFirst(p, key, i);
    }
  }

  /** On a sequence without repeated keys deduplication changes nothing. */
  lemma {:induction false} DedupOfDistinct<T, K>(s: seq<T>, key: T -> K)
    requires NoDupKeys(s, key)
    ensures DedupBy(s, key) == s
  {
    if s != [] {
      var p, x := s[..|s| - 1], s[|s| - 1];
      assert NoDupKeys(p, key) by {
        forall i, j | 0 <= i < j < |p| ensures key(p[i]) != key(p[j]) {
          assert p[i] == s[i] && p[j] == s[j];
        }
      }
      DedupOfDistinct(p, key);
      assert s == p + [x];
    }
  }

  /** Deduplicating twice is deduplicating once. */
  lemma DedupIdempotent<T, K>(s: seq<T>, key: T -> K)
    ensures DedupBy(DedupBy(s, key), key) == DedupBy(s, key)
  {
    DedupNoDup(s, key);
    DedupOfDistinct(DedupBy(s, key), key);
  }

  /** Appending elements whose keys are all already present changes nothing. */
  lemma {:induction false} DedupAppendKnown<T, K>(a: seq<T>, b: seq<T>, key: T -> K)
    requires KeySet(b, key) <= KeySet(a, key)
    ensures DedupBy(a + b, key) == DedupBy(a, key)
    decreases |b|
  {
    if b == [] {
      assert a + b == a;
    } else {
      var q, x := b[..|b| - 1], b[|b| - 1];
      KeySetSnoc(q, x, key);
      assert b == q + [x];
      DedupAppendKnown(a, q, key);
      assert (a + b)[..|a + b| - 1] == a + q;
      DedupKeySet(a, key);
    }
  }

  /** Merging into an already deduplicated sequence is deduplicating the whole. */
  lemma {:induction false} DedupAppendDedup<T, K>(a: seq<T>, b: seq<T>, key: T -> K)
    ensures DedupBy(DedupBy(a, key) + b, key) == DedupBy(a + b, key)
    decreases |b|
  {
    var d := DedupBy(a, key);
    if b == [] {
      assert d + b == d && a + b == a;
      DedupIdempotent(a, key);
    } else {
      var q, x := b[..|b| - 1], b[|b| - 1];
      DedupAppendDedup(a, q, key);
      assert (d + b)[..|d + b| - 1] == d + q;
      assert (a + b)[..|a + b| - 1] == a + q;
      assert (d + b)[|d + b| - 1] == x && (a + b)[|a + b| - 1] == x;
    }
  }

  /** Every kept element is an element of the input. */
  lemma {:induction false} DedupMembers<T, K>(s: seq<T>, key: T -> K, x: T)
    requires x in DedupBy(s, key)
    ensures x in s
  {
    var p := s[..|s| - 1];
    if x in DedupBy(p, key) {
      DedupMembers(p, key, x);
      assert s == p + [s[|s| - 1]];
    }
  }

  /** After appending b to a, an element kept for a key that a already has comes from a:
      the earlier element wins. */
  lemma {:induction false} DedupKeepsEarlier<T, K>(a: seq<T>, b: seq<T>, key: T -> K, x: T)
    requires x in DedupBy(a + b, key) && key(x) in KeySet(a, key)
    ensures x in a
    decreases |b|
  {
    if b == [] {
      assert a + b == a;
      DedupMembers(a, key, x);
    } else {
      var q, y := b[..|b| - 1], b[|b| - 1];
      assert (a + b)[..|a + b| - 1] == a + q && (a + b)[|a + b| - 1] == y;
      var d := DedupBy(a + q, key);
      if x in d {
        DedupKeepsEarlier(a, q, key, x);
      } else {
        assert x == y && key(y) !in KeySet(d, key);
        DedupKeySet(a + q, key);
        KeySetAppend(a, q, key);
      }
    }
  }

  /** The seen-set scan keeps exactly the first occurrences, in order. */
  lemma {:induction false} DedupIsFirstOccurrences<T, K>(s: seq<T>, key: T -> K)
    ensures DedupBy(s, key) == FirstOccurrences(s, key)
  {
    if s != [] {
      var p := s[..|s| - 1];
      DedupIsFirstOccurrences(p, key);
      DedupKeySet(p, key);
      assert KeySet(p, key) == (set i | 0 <= i < |p| :: key(p[i]));
    }
  }
}
