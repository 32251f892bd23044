/** Keeping the N greatest of a growing set by evicting the least whenever there are too many. */
module TopN {
  import opened Types
  import opened Digits

  function Greater(keys: set<Bytes>, k: Bytes): set<Bytes> {
    set x | x in keys && LexLess(k, x)
  }

  /** The keys with fewer than `n` greater ones. */
  function Top(keys: set<Bytes>, n: nat): set<Bytes> {
    set k | k in keys && |Greater(keys, k)| < n
  }

  ghost predicate IsFirst(keys: set<Bytes>, k: Bytes) {
    k in keys && forall x :: x in keys ==> !LexLess(x, k)
  }

  lemma {:induction false} FirstExists(keys: set<Bytes>) returns (k: Bytes)
    requires keys != {}
    ensures IsFirst(keys, k)
    decreases |keys|
  {
    k :| k in keys;
    LexTotal(k, k);
    if keys != {k} {
      var rest := keys - {k};
      assert keys == rest + {k};
      var m := FirstExists(rest);
      LexTotal(m, k);
      if LexLess(m, k) {
        forall x | x in keys ensures !LexLess(x, m) {
          if x == k {
            LexTotal(m, k);
          }
        }
        k := m;
      } else {
        forall x | x in keys ensures !LexLess(x, k) {
          if LexLess(x, k) && x != k {
            LexTotal(x, m);
            if x != m {
              LexTransitive(m, x, k);
            }
          }
        }
      }
    }
  }

  /** A set of at most `n` keys is its own top. */
  lemma SmallIsTop(keys: set<Bytes>, n: nat)
    requires |keys| <= n
    ensures Top(keys, n) == keys
  {
    forall k | k in keys ensures |Greater(keys, k)| < n {
      LexTotal(k, k);
      Fewer(Greater(keys, k), keys, k);
    }
  }

  lemma Fewer<T>(a: set<T>, b: set<T>, x: T)
    requires a <= b && x in b && x !in a
    ensures |a| < |b|
  {
    Subset(a, b - {x});
  }

  lemma {:induction false} Subset<T>(a: set<T>, b: set<T>)
    requires a <= b
    ensures |a| <= |b|
  {
    assert b == a + (b - a);
  }

  /** Evicting the least of more than `n` keys does not change the top. */
  lemma EvictFirst(keys: set<Bytes>, k: Bytes, n: nat)
    requires IsFirst(keys, k) && |keys| > n
    ensures Top(keys - {k}, n) == Top(keys, n)
  {
    var rest := keys - {k};
    forall x | x in rest ensures Greater(rest, x) == Greater(keys, x) {
    }
    assert Greater(keys, k) == rest by {
      forall x | x in rest ensures LexLess(k, x) {
        LexTotal(k, x);
      }
      LexTotal(k, k);
    }
  }

  /** Taking the top before a key is added changes nothing: eviction may be done online. */
  lemma {:induction false} OnlineTop(keys: set<Bytes>, x: Bytes, n: nat)
    ensures Top(Top(keys, n) + {x}, n) == Top(keys + {x}, n)
    decreases |keys|
  {
    if |keys| <= n {
      SmallIsTop(keys, n);
    } else {
      var k := FirstExists(keys);
      EvictFirst(keys, k, n);
      OnlineTop(keys - {k}, x, n);
      EvictAround(keys, k, x, n);
    }
  }

  lemma EvictAround(keys: set<Bytes>, k: Bytes, x: Bytes, n: nat)
    requires IsFirst(keys, k) && |keys| > n
    ensures Top(keys - {k} + {x}, n) == Top(keys + {x}, n)
  {
    if x in keys {
      assert keys + {x} == keys;
      if x == k {
        assert keys - {k} + {x} == keys;
      } else {
        assert keys - {k} + {x} == keys - {k};
        EvictFirst(keys, k, n);
      }
    } else if LexLess(x, k) {
      EvictBoth(keys, k, x, n);
    } else {
      assert keys + {x} - {k} == keys - {k} + {x};
      Subset(keys, keys + {x});
      EvictFirst(keys + {x}, k, n);
    }
  }

  lemma EvictBoth(keys: set<Bytes>, k: Bytes, x: Bytes, n: nat)
    requires IsFirst(keys, k) && |keys| > n && x !in keys && LexLess(x, k)
    ensures Top(keys - {k} + {x}, n) == Top(keys + {x}, n)
  {
    forall y | y in keys + {x} ensures !LexLess(y, x) {
      LexTotal(x, x);
      if y in keys && LexLess(y, x) {
        LexTransitive(y, x, k);
      }
    }
    assert keys + {x} - {x} == keys;
    assert keys - {k} + {x} - {x} == keys - {k};
    EvictFirst(keys + {x}, x, n);
    EvictFirst(keys, k, n);
    assert |keys - {k} + {x}| == |keys|;
    EvictFirst(keys - {k} + {x}, x, n);
  }

  /** The top of a top is the smaller of the two. */
  lemma TopOfTop(keys: set<Bytes>, m: nat, n: nat)
    requires m <= n
    ensures Top(Top(keys, n), m) == Top(keys, m)
  {
    forall k | k in Top(keys, n) ensures Greater(Top(keys, n), k) == Greater(keys, k) {
      forall x | x in Greater(keys, k) ensures x in Top(keys, n) {
        LexAscends(keys, k, x);
        Subset(Greater(keys, x), Greater(keys, k));
      }
    }
  }

  lemma LexAscends(keys: set<Bytes>, k: Bytes, x: Bytes)
    requires LexLess(k, x)
    ensures Greater(keys, x) <= Greater(keys, k)
  {
    forall y | y in Greater(keys, x) ensures y in Greater(keys, k) {
      LexTransitive(k, x, y);
    }
  }

  lemma {:induction false} TopSize(keys: set<Bytes>, n: nat)
    ensures |Top(keys, n)| == if |keys| < n then |keys| else n
    decreases |keys|
  {
    if |keys| <= n {
      SmallIsTop(keys, n);
    } else {
      var k := FirstExists(keys);
      EvictFirst(keys, k, n);
      TopSize(keys - {k}, n);
    }
  }
}
