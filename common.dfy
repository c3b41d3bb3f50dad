/** Option values, for the source's `null`/`undefined` slots. */
module Wrappers {

  datatype Option<+T> = None | Some(value: T)

  /** The set holding the value of `o`, if any. */
  function OptionSet<T>(o: Option<T>): (r: set<T>)
    ensures o.None? <==> r == {}
    ensures o.Some? ==> o.value in r && |r| == 1
  {
    if o.Some? then {o.value} else {}
  }
}

/**
 * Duplicate-free sequences: the insertion-ordered JavaScript `Set` used by the
 * WebSocket service, and the `includes`/spread and `filter` idioms the stage page
 * applies to id lists.
 */
module Sequences {

  ghost predicate NoDup<T>(s: seq<T>)
  {
    forall i, j :: 0 <= i < j < |s| ==> s[i] != s[j]
  }

  function Elements<T>(s: seq<T>): set<T>
  {
    set x | x in s
  }

  /** `s.includes(x) ? s : [...s, x]`, and `Set.prototype.add`. */
  function AddIfAbsent<T(==,!new)>(s: seq<T>, x: T): (r: seq<T>)
    ensures forall y :: y in r <==> y in s || y == x
    ensures |s| <= |r| <= |s| + 1 && r[..|s|] == s
    ensures x in s <==> |r| == |s|
    ensures NoDup(s) ==> NoDup(r)
  {
    if x in s then s else s + [x]
  }

  /** `s.filter(y => y !== x)`, and `Set.prototype.delete`. */
  function Without<T(==,!new)>(s: seq<T>, x: T): (r: seq<T>)
    ensures forall y :: y in r <==> y in s && y != x
    ensures |r| <= |s|
    ensures x !in s ==> r == s
    ensures NoDup(s) ==> NoDup(r)
  {
    if s == [] then []
    else
      NoDupTail(s);
      if s[0] == x then Without(s[1..], x)
      else [s[0]] + Without(s[1..], x)
  }

  /** The tail of a duplicate-free sequence is duplicate-free and misses its head. */
  lemma NoDupTail<T>(s: seq<T>)
    requires s != []
    ensures NoDup(s) ==> NoDup(s[1..]) && s[0] !in s[1..]
  {
    if NoDup(s) {
      forall i | 0 <= i < |s| - 1 ensures s[1..][i] != s[0] {
        assert s[1..][i] == s[i + 1];
      }
    }
  }

  /** Removing an element keeps every other element in its place relative to the rest. */
  lemma {:induction false} WithoutDistributes<T(!new)>(a: seq<T>, b: seq<T>, x: T)
    ensures Without(a + b, x) == Without(a, x) + Without(b, x)
  {
    if a == [] {
      assert a + b == b;
    } else {
      assert (a + b)[1..] == a[1..] + b;
      WithoutDistributes(a[1..], b, x);
    }
  }

  /** A duplicate-free sequence has as many distinct elements as it has entries. */
  lemma {:induction false} NoDupCardinality<T>(s: seq<T>)
    requires NoDup(s)
    ensures |Elements(s)| == |s|
  {
    if s != [] {
      var t := s[1..];
      assert NoDup(t) by {
        forall i, j | 0 <= i < j < |t| ensures t[i] != t[j] {
          assert t[i] == s[i + 1] && t[j] == s[j + 1];
        }
      }
      NoDupCardinality(t);
      assert s[0] !in t by {
        forall i | 0 <= i < |t| ensures t[i] != s[0] {
          assert t[i] == s[i + 1];
        }
      }
      assert Elements(s) == Elements(t) + {s[0]} by {
        forall y ensures y in Elements(s) <==> y in Elements(t) + {s[0]} {
          if y in s && y != s[0] {
            var k :| 0 <= k < |s| && s[k] == y;
            assert t[k - 1] == y;
          }
        }
      }
    }
  }
}

/** JavaScript number helpers the core relies on. */
module JsMath {

  /**
   * `Math.round`: the integer nearest to `x`, a half rounded towards positive
   * infinity (so `Math.round(-2.5) == -2`).
   */
  function Round(x: real): (r: int)
    ensures x - 0.5 < r as real <= x + 0.5
  {
    (x + 0.5).Floor
  }

  /** Rounding leaves an integer unchanged. */
  lemma RoundInteger(n: int)
    ensures Round(n as real) == n
  {
  }

  /** `THREE.MathUtils.clamp(x, 0, 1)`, i.e. `Math.max(0, Math.min(1, x))`. */
  function Clamp01(x: real): (r: real)
    ensures 0.0 <= r <= 1.0
    ensures 0.0 <= x <= 1.0 ==> r == x
    ensures x < 0.0 ==> r == 0.0
    ensures x > 1.0 ==> r == 1.0
  {
    if x < 0.0 then 0.0 else if x > 1.0 then 1.0 else x
  }
}
