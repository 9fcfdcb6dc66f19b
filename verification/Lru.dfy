/**
 Insertion-ordered dictionaries used as bounded least-recently-used structures: the
 set of recently seen event ids (app/websocket/manager.py) and the in-process cache
 (app/core/cache.py). The order is a sequence without repetitions, oldest first.
 */
module Lru {

  ghost predicate Distinct<K>(s: seq<K>) {
    forall i, j | 0 <= i < j < |s| :: s[i] != s[j]
  }

  function Without<K(==)>(s: seq<K>, k: K): (r: seq<K>)
    ensures |s| - 1 <= |r| <= |s|
  {
    if s == [] then []
    else if s[0] == k then s[1..]
    else [s[0]] + Without(s[1..], k)
  }

  /** `d[k] = v; d.move_to_end(k)`, as far as the order goes. */
  function Touch<K(==)>(s: seq<K>, k: K): seq<K> {
    Without(s, k) + [k]
  }

  /** Dropping the oldest until at most `cap` are left. */
  function Trim<K>(s: seq<K>, cap: nat): seq<K> {
    if |s| > cap then s[|s| - cap..] else s
  }

  ghost function Elements<K>(s: seq<K>): set<K> {
    set x | x in s
  }

  /** The elements behind the first `k`: those used more recently than it. */
  ghost function After<K>(s: seq<K>, k: K): set<K> {
    if s == [] then {}
    else if s[0] == k then Elements(s[1..])
    else After(s[1..], k)
  }

  lemma {:induction false} WithoutIs<K>(s: seq<K>, k: K)
    requires Distinct(s)
    ensures Distinct(Without(s, k)) && Elements(Without(s, k)) == Elements(s) - {k}
    ensures k !in s ==> Without(s, k) == s
  {
    if s != [] {
      WithoutIs(s[1..], k);
      assert s == [s[0]] + s[1..];
      if s[0] != k {
        var r := Without(s[1..], k);
        assert s[0] !in Elements(s[1..]);
        assert s[0] !in r by { assert s[0] !in Elements(r); }
        assert Elements([s[0]] + r) == {s[0]} + Elements(r);
        assert Elements(s) == {s[0]} + Elements(s[1..]);
      } else {
        assert Elements(s) == {s[0]} + Elements(s[1..]);
      }
    }
  }

  lemma TouchIs<K>(s: seq<K>, k: K)
    requires Distinct(s)
    ensures Distinct(Touch(s, k)) && Elements(Touch(s, k)) == Elements(s) + {k}
  {
    WithoutIs(s, k);
    assert k !in Without(s, k) by { assert k !in Elements(Without(s, k)); }
    assert Elements(Touch(s, k)) == Elements(Without(s, k)) + {k};
  }

  lemma {:induction false} Size<K>(s: seq<K>)
    requires Distinct(s)
    ensures |Elements(s)| == |s|
  {
    if s != [] {
      Size(s[1..]);
      assert s == [s[0]] + s[1..];
      assert Elements(s) == {s[0]} + Elements(s[1..]);
      assert s[0] !in Elements(s[1..]);
    }
  }

  lemma {:induction false} AfterWithout<K>(s: seq<K>, j: K, k: K)
    requires Distinct(s) && j != k
    ensures After(Without(s, j), k) == After(s, k) - {j}
  {
    if s != [] {
      if s[0] == k {
        WithoutIs(s[1..], j);
        assert ([s[0]] + Without(s[1..], j))[1..] == Without(s[1..], j);
      } else if s[0] == j {
        assert j !in s[1..];
        AfterIn(s[1..], k);
      } else {
        AfterWithout(s[1..], j, k);
        assert ([s[0]] + Without(s[1..], j))[1..] == Without(s[1..], j);
      }
    }
  }

  lemma {:induction false} AfterIn<K>(s: seq<K>, k: K)
    ensures After(s, k) <= Elements(s)
    ensures k !in s ==> After(s, k) == {}
  {
    if s != [] {
      AfterIn(s[1..], k);
      assert s == [s[0]] + s[1..];
    }
  }

  lemma {:induction false} AfterAppend<K>(s: seq<K>, j: K, k: K)
    requires k in s
    ensures After(s + [j], k) == After(s, k) + {j}
  {
    assert (s + [j])[1..] == s[1..] + [j];
    if s[0] == k {
      assert Elements(s[1..] + [j]) == Elements(s[1..]) + {j};
    } else {
      AfterAppend(s[1..], j, k);
    }
  }

  /** Using `j` puts it, and only it, among the elements more recent than `k`. */
  lemma AfterTouch<K>(s: seq<K>, j: K, k: K)
    requires Distinct(s)
    ensures j == k ==> After(Touch(s, j), k) == {}
    ensures j != k && k in s ==> After(Touch(s, j), k) == After(s, k) + {j}
  {
    WithoutIs(s, j);
    if j != k && k in s {
      assert k in Elements(Without(s, j));
      AfterWithout(s, j, k);
      AfterAppend(Without(s, j), j, k);
    } else if j == k {
      assert k !in Without(s, j) by { assert k !in Elements(Without(s, j)); }
      AfterLast(Without(s, j), k);
    }
  }

  lemma {:induction false} AfterLast<K>(s: seq<K>, k: K)
    requires k !in s
    ensures After(s + [k], k) == {}
  {
    if s != [] {
      assert (s + [k])[1..] == s[1..] + [k];
      AfterLast(s[1..], k);
    } else {
      assert (s + [k])[1..] == [];
    }
  }

  /** An element survives trimming exactly when fewer than `cap` are more recent. */
  lemma {:induction false} TrimKeeps<K>(s: seq<K>, cap: nat, k: K)
    requires Distinct(s) && k in s
    ensures k in Trim(s, cap) <==> |After(s, k)| < cap
    ensures k in Trim(s, cap) ==> After(Trim(s, cap), k) == After(s, k)
  {
    if s[0] == k {
      Size(s[1..]);
      if |s| > cap {
        var t := s[|s| - cap..];
        assert forall i | 0 <= i < |t| :: t[i] == s[|s| - cap + i];
      }
    } else {
      TrimKeeps(s[1..], cap, k);
      if |s| > cap {
        if |s| - 1 > cap {
          assert Trim(s, cap) == Trim(s[1..], cap);
        } else {
          assert Trim(s, cap) == s[1..];
        }
      } else {
        assert Trim(s[1..], cap) == s[1..];
      }
    }
  }

  lemma TrimIs<K>(s: seq<K>, cap: nat)
    requires Distinct(s)
    ensures Distinct(Trim(s, cap)) && Elements(Trim(s, cap)) <= Elements(s) && |Trim(s, cap)| <= cap
  {
  }

  // ---------- The de-duplication set ----------

  function Mark<K(==)>(seen: seq<K>, id: K, cap: nat): seq<K> {
    Trim(Touch(seen, id), cap)
  }

  /** What the set holds after a history of marks. */
  ghost function SeenAfter<K>(h: seq<K>, cap: nat): seq<K> {
    if h == [] then [] else Mark(SeenAfter(h[..|h| - 1], cap), h[|h| - 1], cap)
  }

  /** All ids of a history, by their last mark. */
  ghost function ByRecency<K>(h: seq<K>): seq<K> {
    if h == [] then [] else Touch(ByRecency(h[..|h| - 1]), h[|h| - 1])
  }

  /** The other ids marked since the last mark of `id`. */
  ghost function Since<K>(h: seq<K>, id: K): set<K> {
    if h == [] || h[|h| - 1] == id then {} else Since(h[..|h| - 1], id) + {h[|h| - 1]}
  }

  lemma {:induction false} ByRecencyIs<K>(h: seq<K>)
    ensures Distinct(ByRecency(h)) && Elements(ByRecency(h)) == Elements(h)
  {
    if h != [] {
      var g := h[..|h| - 1];
      ByRecencyIs(g);
      TouchIs(ByRecency(g), h[|h| - 1]);
      assert h == g + [h[|h| - 1]];
      assert Elements(h) == Elements(g) + {h[|h| - 1]};
    }
  }

  lemma {:induction false} AfterIsSince<K>(h: seq<K>, id: K)
    requires id in h
    ensures After(ByRecency(h), id) == Since(h, id)
  {
    var g := h[..|h| - 1];
    var j := h[|h| - 1];
    ByRecencyIs(g);
    AfterTouch(ByRecency(g), j, id);
    assert h == g + [j];
    if j != id {
      AfterIsSince(g, id);
      assert id in Elements(ByRecency(g));
    }
  }

  lemma {:induction false} WithoutSuffix<K>(a: seq<K>, b: seq<K>, k: K)
    requires k !in a
    ensures Without(a + b, k) == a + Without(b, k)
  {
    if a == [] {
      assert a + b == b;
    } else {
      assert (a + b)[1..] == a[1..] + b;
      WithoutSuffix(a[1..], b, k);
    }
  }

  lemma {:induction false} WithoutPrefix<K>(a: seq<K>, b: seq<K>, k: K)
    requires k in a
    ensures Without(a + b, k) == Without(a, k) + b && |Without(a, k)| == |a| - 1
  {
    assert (a + b)[1..] == a[1..] + b;
    if a[0] != k {
      WithoutPrefix(a[1..], b, k);
    }
  }

  lemma TrimSuffix<K>(a: seq<K>, b: seq<K>, cap: nat)
    requires |b| >= cap
    ensures Trim(a + b, cap) == Trim(b, cap)
  {
    assert (a + b)[|a| + |b| - cap..] == b[|b| - cap..];
  }

  /** Trimming before a mark loses nothing that trimming after it would keep. */
  lemma MarkTrimmed<K>(r: seq<K>, id: K, cap: nat)
    requires Distinct(r) && cap >= 1
    ensures Mark(Trim(r, cap), id, cap) == Trim(Touch(r, id), cap)
  {
    if |r| > cap {
      var a, b := r[..|r| - cap], r[|r| - cap..];
      assert r == a + b;
      if id in a {
        WithoutPrefix(a, b, id);
        assert id !in b;
        WithoutIs(b, id);
        assert Touch(r, id) == Without(a, id) + (b + [id]);
        TrimSuffix(Without(a, id), b + [id], cap);
      } else {
        WithoutSuffix(a, b, id);
        assert Touch(r, id) == a + Touch(b, id);
        TrimSuffix(a, Touch(b, id), cap);
      }
    }
  }

  /** The set holds exactly the last `cap` distinct ids marked, in order of their last mark. */
  lemma {:induction false} SeenIsTheLastCap<K>(h: seq<K>, cap: nat)
    requires cap >= 1
    ensures SeenAfter(h, cap) == Trim(ByRecency(h), cap)
  {
    if h != [] {
      SeenIsTheLastCap(h[..|h| - 1], cap);
      ByRecencyIs(h[..|h| - 1]);
      MarkTrimmed(ByRecency(h[..|h| - 1]), h[|h| - 1], cap);
    }
  }

  /** So an id is remembered exactly until `cap` other distinct ids are marked. */
  lemma SeenExactly<K>(h: seq<K>, cap: nat, id: K)
    requires cap >= 1
    ensures id in SeenAfter(h, cap) <==> id in h && |Since(h, id)| < cap
  {
    SeenIsTheLastCap(h, cap);
    ByRecencyIs(h);
    assert id in Elements(ByRecency(h)) <==> id in Elements(h);
    if id in h {
      AfterIsSince(h, id);
      TrimKeeps(ByRecency(h), cap, id);
    } else {
      TrimIs(ByRecency(h), cap);
      assert id !in Elements(Trim(ByRecency(h), cap));
    }
  }
}
