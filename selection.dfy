/** The multi-select toggle that the onboarding screens share: a selection is the
    array of chosen keys, in the order they were clicked. Clicking a key that is
    absent appends it (`[...prev, k]`); clicking one that is present filters every
    occurrence out (`prev.filter(x => x !== k)`). */
module Selection {

  /** A day key or a category id. */
  type Key = string

  /** No key occurs twice. */
  ghost predicate NoDup(xs: seq<Key>) {
    forall i, j :: 0 <= i < j < |xs| ==> xs[i] != xs[j]
  }

  /** Every key of `xs` is one of `keys`. */
  ghost predicate Within(xs: seq<Key>, keys: seq<Key>) {
    forall i :: 0 <= i < |xs| ==> xs[i] in keys
  }

  /** `Array.prototype.filter(x => x !== k)`: drops every occurrence of `k`,
      keeping the other keys in their order. */
  function Without(xs: seq<Key>, k: Key): (r: seq<Key>)
    ensures |r| <= |xs|
    ensures k !in r
    ensures forall x :: x in r <==> x in xs && x != k
  {
    if xs == [] then []
    else (if xs[0] == k then [] else [xs[0]]) + Without(xs[1..], k)
  }

  /** `prev.includes(k) ? prev.filter(x => x !== k) : [...prev, k]` */
  function Toggle(xs: seq<Key>, k: Key): (r: seq<Key>)
    ensures k in r <==> k !in xs
    ensures forall x :: x != k ==> (x in r <==> x in xs)
    ensures k !in xs ==> r == xs + [k]
  {
    if k in xs then Without(xs, k) else xs + [k]
  }

  lemma {:induction false} WithoutAbsent(xs: seq<Key>, k: Key)
    requires k !in xs
    ensures Without(xs, k) == xs
  {
    if xs != [] {
      assert xs == [xs[0]] + xs[1..];
      WithoutAbsent(xs[1..], k);
    }
  }

  lemma {:induction false} WithoutConcat(a: seq<Key>, b: seq<Key>, k: Key)
    ensures Without(a + b, k) == Without(a, k) + Without(b, k)
  {
    if a == [] {
      assert a + b == b;
    } else {
      assert (a + b)[0] == a[0];
      assert (a + b)[1..] == a[1..] + b;
      WithoutConcat(a[1..], b, k);
    }
  }

  /** Filtering keeps the order of the other keys: removing `k` from
      `a + [k] + b` gives the filtered `a` followed by the filtered `b`. */
  lemma {:induction false} WithoutSplit(a: seq<Key>, b: seq<Key>, k: Key)
    ensures Without(a + [k] + b, k) == Without(a, k) + Without(b, k)
  {
    WithoutConcat(a + [k], b, k);
    WithoutConcat(a, [k], k);
    assert Without([k], k) == [];
  }

  /** Clicking a present key excises it: in a duplicate-free selection the key
      sits at one place, and the result is what lies before and after it. */
  lemma ToggleRemovesInPlace(a: seq<Key>, b: seq<Key>, k: Key)
    requires k !in a && k !in b
    ensures Toggle(a + [k] + b, k) == a + b
  {
    WithoutSplit(a, b, k);
    WithoutAbsent(a, k);
    WithoutAbsent(b, k);
  }

  /** Clicking an absent key twice restores the selection. */
  lemma ToggleTwiceAbsent(xs: seq<Key>, k: Key)
    requires k !in xs
    ensures Toggle(Toggle(xs, k), k) == xs
  {
    WithoutSplit(xs, [], k);
    assert xs + [k] + [] == xs + [k];
    WithoutAbsent(xs, k);
  }

  /** Clicking a present key twice moves it to the end of the selection; this
      gives back the same selection only when the key was already last. */
  lemma ToggleTwicePresent(a: seq<Key>, b: seq<Key>, k: Key)
    requires k !in a && k !in b
    ensures Toggle(Toggle(a + [k] + b, k), k) == a + b + [k]
  {
    ToggleRemovesInPlace(a, b, k);
  }

  lemma {:induction false} WithoutKeepsNoDup(xs: seq<Key>, k: Key)
    requires NoDup(xs)
    ensures NoDup(Without(xs, k))
  {
    if xs != [] {
      assert NoDup(xs[1..]) by {
        forall i, j | 0 <= i < j < |xs[1..]| ensures xs[1..][i] != xs[1..][j] {
          assert xs[1..][i] == xs[i + 1] && xs[1..][j] == xs[j + 1];
        }
      }
      WithoutKeepsNoDup(xs[1..], k);
      assert xs[0] !in xs[1..] by {
        forall i | 0 <= i < |xs[1..]| ensures xs[1..][i] != xs[0] {
          assert xs[1..][i] == xs[i + 1];
        }
      }
      var r := Without(xs, k);
      var tail := Without(xs[1..], k);
      if xs[0] != k {
        assert r == [xs[0]] + tail;
        forall i, j | 0 <= i < j < |r| ensures r[i] != r[j] {
          if i == 0 {
            assert r[j] == tail[j - 1];
            assert r[j] in xs[1..];
          } else {
            assert r[i] == tail[i - 1] && r[j] == tail[j - 1];
          }
        }
      } else {
        assert r == tail;
      }
    }
  }

  /** Toggling keeps a selection free of duplicates. */
  lemma ToggleKeepsNoDup(xs: seq<Key>, k: Key)
    requires NoDup(xs)
    ensures NoDup(Toggle(xs, k))
  {
    if k in xs {
      WithoutKeepsNoDup(xs, k);
    } else {
      var r := xs + [k];
      forall i, j | 0 <= i < j < |r| ensures r[i] != r[j] {
        if j == |xs| {
          assert r[i] == xs[i];
        } else {
          assert r[i] == xs[i] && r[j] == xs[j];
        }
      }
    }
  }

  lemma {:induction false} NoDupCardinality(xs: seq<Key>)
    requires NoDup(xs)
    ensures |set x | x in xs| == |xs|
  {
    if xs != [] {
      var last := xs[|xs| - 1];
      var init := xs[..|xs| - 1];
      assert xs == init + [last];
      assert NoDup(init) by {
        forall i, j | 0 <= i < j < |init| ensures init[i] != init[j] {
          assert init[i] == xs[i] && init[j] == xs[j];
        }
      }
      NoDupCardinality(init);
      assert last !in init by {
        forall i | 0 <= i < |init| ensures init[i] != last {
          assert init[i] == xs[i];
        }
      }
      assert (set x | x in xs) == (set x | x in init) + {last};
    }
  }

  /** A duplicate-free selection drawn from a key table is no longer than the table. */
  lemma BoundedByKeys(xs: seq<Key>, keys: seq<Key>)
    requires NoDup(xs) && Within(xs, keys)
    ensures |xs| <= |keys|
  {
    NoDupCardinality(xs);
    var s := set x | x in xs;
    var t := set x | x in keys;
    assert s <= t;
    assert t == s + (t - s) && s * (t - s) == {};
    SetOfSeqCardinality(keys);
  }

  lemma {:induction false} SetOfSeqCardinality(keys: seq<Key>)
    ensures |set x | x in keys| <= |keys|
  {
    if keys != [] {
      var init := keys[..|keys| - 1];
      assert keys == init + [keys[|keys| - 1]];
      SetOfSeqCardinality(init);
      assert (set x | x in keys) == (set x | x in init) + {keys[|keys| - 1]};
    }
  }

  /** Toggling a key of a table keeps a selection drawn from that table. */
  lemma ToggleKeepsWithin(xs: seq<Key>, k: Key, keys: seq<Key>)
    requires Within(xs, keys) && k in keys
    ensures Within(Toggle(xs, k), keys)
  {
    var r := Toggle(xs, k);
    forall i | 0 <= i < |r| ensures r[i] in keys {
      assert r[i] in r;
      if r[i] != k {
        var j :| 0 <= j < |xs| && xs[j] == r[i];
      }
    }
  }

  /** Dropping the first key keeps a selection drawn from a table. */
  lemma WithinTail(xs: seq<Key>, keys: seq<Key>)
    requires Within(xs, keys) && xs != []
    ensures xs[0] in keys && Within(xs[1..], keys)
  {
    forall i | 0 <= i < |xs[1..]| ensures xs[1..][i] in keys {
      assert xs[1..][i] == xs[i + 1];
    }
  }
}
