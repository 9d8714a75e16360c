/**
 * Small utilities of the Sketch runtime: `extend`, the `Array.prototype.indexOf` /
 * `splice` pair used by `destroy`, the substring test behind the pointer-type regular
 * expressions, and the `lerp` / `map` formulas that `install` publishes.
 */
module SketchUtil {

  /** `Array.prototype.indexOf`: the first position of x, or -1. */
  function IndexOf<T(==)>(s: seq<T>, x: T): (r: int)
    ensures -1 <= r < |s|
    ensures r == -1 <==> x !in s
    ensures r >= 0 ==> s[r] == x && x !in s[..r]
  {
    if |s| == 0 then -1
    else if s[0] == x then 0
    else
      var i := IndexOf(s[1..], x);
      if i == -1 then -1
      else
        assert s[..i + 1] == [s[0]] + s[1..][..i];
        i + 1
  }

  /** A position holding x with no x before it is the one `indexOf` finds. */
  lemma IndexOfFirst<T>(s: seq<T>, x: T, i: int)
    requires 0 <= i < |s| && s[i] == x && x !in s[..i]
    ensures IndexOf(s, x) == i
  {
  }

  lemma Regroup<T>(a: seq<T>, b: seq<T>, c: seq<T>)
    ensures a + b + c == a + (b + c)
  {
  }

  lemma AppendThree<T>(s: seq<T>, a: seq<T>, b: seq<T>, c: seq<T>)
    ensures s + a + b + c == s + (a + b + c)
  {
  }

  /** How many times x occurs in s. */
  function Count<T(==)>(s: seq<T>, x: T): (r: nat)
    ensures r == 0 <==> x !in s
  {
    if |s| == 0 then 0 else (if s[0] == x then 1 else 0) + Count(s[1..], x)
  }

  lemma {:induction false} CountAppend<T>(a: seq<T>, b: seq<T>, x: T)
    ensures Count(a + b, x) == Count(a, x) + Count(b, x)
  {
    if |a| > 0 {
      assert (a + b)[1..] == a[1..] + b;
      CountAppend(a[1..], b, x);
    } else {
      assert a + b == b;
    }
  }

  /** `if (~index) s.splice(index, 1)` with index = s.indexOf(x): the first occurrence
      of x is removed, and nothing happens when x does not occur. */
  function RemoveFirst<T(==)>(s: seq<T>, x: T): (r: seq<T>)
    ensures x in s ==> |r| == |s| - 1
    ensures x !in s ==> r == s
  {
    var i := IndexOf(s, x);
    if i != -1 then s[..i] + s[i + 1..] else s
  }

  /** Reference definition: every element other than x, in order. */
  function Without<T(==)>(s: seq<T>, x: T): (r: seq<T>)
    ensures x !in r
  {
    if |s| == 0 then []
    else if s[0] == x then Without(s[1..], x)
    else [s[0]] + Without(s[1..], x)
  }

  predicate Distinct<T(==)>(s: seq<T>) {
    forall i, j :: 0 <= i < j < |s| ==> s[i] != s[j]
  }

  /** The tail of a sequence without repetitions has none, and lacks the head. */
  lemma DistinctTail<T>(s: seq<T>)
    requires Distinct(s) && |s| > 0
    ensures Distinct(s[1..]) && s[0] !in s[1..]
  {
    forall i, j | 0 <= i < j < |s[1..]|
      ensures s[1..][i] != s[1..][j]
    {
      assert s[1..][i] == s[i + 1] && s[1..][j] == s[j + 1];
    }
    forall j | 0 <= j < |s[1..]|
      ensures s[1..][j] != s[0]
    {
      assert s[1..][j] == s[j + 1];
    }
  }

  lemma {:induction false} WithoutAbsent<T>(s: seq<T>, x: T)
    requires x !in s
    ensures Without(s, x) == s
  {
    if |s| > 0 {
      WithoutAbsent(s[1..], x);
    }
  }

  /** On a sequence without repetitions, removing the first occurrence removes x
      altogether and keeps every other element in order. */
  lemma {:induction false} RemoveFirstIsWithout<T>(s: seq<T>, x: T)
    requires Distinct(s)
    ensures RemoveFirst(s, x) == Without(s, x)
  {
    if |s| > 0 {
      DistinctTail(s);
      if s[0] == x {
        WithoutAbsent(s[1..], x);
        assert IndexOf(s, x) == 0;
      } else {
        RemoveFirstIsWithout(s[1..], x);
        RemoveFirstPastHead(s, x);
      }
    }
  }

  /** Past a head other than x, removing the first x happens in the tail. */
  lemma RemoveFirstPastHead<T>(s: seq<T>, x: T)
    requires |s| > 0 && s[0] != x
    ensures RemoveFirst(s, x) == [s[0]] + RemoveFirst(s[1..], x)
  {
    var i := IndexOf(s[1..], x);
    if i != -1 {
      assert IndexOf(s, x) == i + 1;
      assert s[..i + 1] + s[i + 2..] == [s[0]] + (s[1..][..i] + s[1..][i + 1..]);
    } else {
      assert s == [s[0]] + s[1..];
    }
  }

  /** Removal keeps a sequence free of repetitions. */
  lemma {:induction false} WithoutDistinct<T>(s: seq<T>, x: T)
    requires Distinct(s)
    ensures Distinct(Without(s, x))
    ensures forall y :: y in Without(s, x) <==> y in s && y != x
  {
    if |s| > 0 {
      assert Distinct(s[1..]) by {
        forall i, j | 0 <= i < j < |s[1..]|
          ensures s[1..][i] != s[1..][j]
        {
          assert s[1..][i] == s[i + 1] && s[1..][j] == s[j + 1];
        }
      }
      WithoutDistinct(s[1..], x);
      assert s[0] !in s[1..] by {
        forall j | 0 <= j < |s[1..]|
          ensures s[1..][j] != s[0]
        {
          assert s[1..][j] == s[j + 1];
        }
      }
      assert forall y :: y in s <==> y == s[0] || y in s[1..] by {
        assert s == [s[0]] + s[1..];
      }
    }
  }

  /** `extend(target, source, overwrite)` as a value: every key of source is copied when
      overwriting, or when target lacks it; every other key of target is kept. */
  function Extended<K, V>(target: map<K, V>, source: map<K, V>, overwrite: bool): (r: map<K, V>)
    ensures r.Keys == target.Keys + source.Keys
    ensures forall k :: k in source && (overwrite || k !in target) ==> r[k] == source[k]
    ensures forall k :: k in target && !(k in source && overwrite) ==> r[k] == target[k]
  {
    map k | k in target.Keys + source.Keys ::
      if k in source && (overwrite || k !in target) then source[k] else target[k]
  }

  /** The loop of `extend`: keys of source are visited one at a time (the order of a
      `for ... in` loop does not matter, since each key is written at most once) and
      the membership test sees the target as updated so far. */
  method Extend<K, V>(target: map<K, V>, source: map<K, V>, overwrite: bool) returns (r: map<K, V>)
    ensures r == Extended(target, source, overwrite)
  {
    r := target;
    var pending := source.Keys;
    while pending != {}
      invariant pending <= source.Keys
      invariant r.Keys == target.Keys + (source.Keys - pending)
      invariant forall k :: k in r ==>
                  r[k] == if k in source && k !in pending && (overwrite || k !in target)
                          then source[k] else target[k]
      decreases pending
    {
      var key :| key in pending;
      if overwrite || key !in r {
        r := r[key := source[key]];
      }
      pending := pending - {key};
    }
  }

  /** Extending twice with the same source changes nothing more. */
  lemma ExtendIdempotent<K, V>(target: map<K, V>, source: map<K, V>, overwrite: bool)
    ensures Extended(Extended(target, source, overwrite), source, overwrite)
         == Extended(target, source, overwrite)
  {
    var once := Extended(target, source, overwrite);
    var twice := Extended(once, source, overwrite);
    assert forall k :: k in twice ==> twice[k] == once[k];
  }

  /** `/down|start/.test(s)` and its kind: does sub occur in s? */
  predicate Contains(s: string, sub: string)
    decreases |s|
  {
    |sub| <= |s| && (s[..|sub|] == sub || Contains(s[1..], sub))
  }

  /** sub found at position i is contained. */
  lemma {:induction false} ContainsAt(s: string, sub: string, i: nat)
    requires i + |sub| <= |s| && s[i..i + |sub|] == sub
    ensures Contains(s, sub)
  {
    if i > 0 {
      assert s[1..][i - 1..i - 1 + |sub|] == s[i..i + |sub|];
      ContainsAt(s[1..], sub, i - 1);
    }
  }

  /** A string lacking one of sub's characters does not contain sub. */
  lemma {:induction false} MissingCharNotContained(s: string, sub: string, j: int)
    requires 0 <= j < |sub| && sub[j] !in s
    ensures !Contains(s, sub)
  {
    if |sub| <= |s| {
      assert s[..|sub|][j] == s[j];
      MissingCharNotContained(s[1..], sub, j);
    }
  }

  /** `lerp(min, max, amount)` */
  function Lerp(lo: real, hi: real, amount: real): (r: real)
    ensures amount == 0.0 ==> r == lo
    ensures amount == 1.0 ==> r == hi
  {
    lo + amount * (hi - lo)
  }

  /** `map(num, minA, maxA, minB, maxB)`: the affine map taking [minA, maxA] onto [minB, maxB]. */
  function MapRange(num: real, minA: real, maxA: real, minB: real, maxB: real): (r: real)
    requires maxA != minA
    ensures num == minA ==> r == minB
    ensures num == maxA ==> r == maxB
  {
    var w := maxA - minA;
    DivideBySelf(w);
    (num - minA) / w * (maxB - minB) + minB
  }

  lemma DivideBySelf(w: real)
    requires w != 0.0
    ensures w / w == 1.0 && 0.0 / w == 0.0
  {
  }

  /** `map` onto [0,1] undoes `lerp`. */
  lemma MapUndoesLerp(lo: real, hi: real, amount: real)
    requires lo != hi
    ensures MapRange(Lerp(lo, hi, amount), lo, hi, 0.0, 1.0) == amount
  {
    assert Lerp(lo, hi, amount) - lo == amount * (hi - lo);
  }
}
