/**
 * Shared vocabulary of the model: identifiers, clock readings, optional
 * values, results, and the two query shapes every table lookup in the
 * services uses (`find { .. }` as Filter, `find { .. }.firstOrNull()` as First).
 */
module Common {

  /** UUIDs are opaque: the model only compares them for equality. */
  type Uuid = nat

  /** A clock reading (`kotlinx.datetime.Instant`), supplied as an input. */
  type Instant = int

  /** Opaque ciphertext (`ByteArray`). */
  type Bytes = seq<bv8>

  /** Kotlin's nullable `T?`. */
  datatype Option<+T> = None | Some(value: T)

  /** A value or the exception that a call threw instead. */
  datatype Result<+T, +E> = Ok(value: T) | Err(error: E)

  /** No element occurs twice. */
  ghost predicate Distinct<T>(s: seq<T>)
  {
    forall i, j :: 0 <= i < j < |s| ==> s[i] != s[j]
  }

  /**
   * The rows of a table that satisfy a query, in table order
   * (`Entity.find { p }` and Kotlin's `filter`).
   */
  function Filter<T>(s: seq<T>, p: T -> bool): (r: seq<T>)
    ensures |r| <= |s|
    ensures forall x :: x in r ==> x in s && p(x)
    ensures forall x :: x in s && p(x) ==> x in r
  {
    if s == [] then []
    else if p(s[0]) then [s[0]] + Filter(s[1..], p)
    else Filter(s[1..], p)
  }

  /** A filter keeps everything when every row qualifies. */
  lemma {:induction false} FilterAll<T>(s: seq<T>, p: T -> bool)
    requires forall x :: x in s ==> p(x)
    ensures Filter(s, p) == s
  {
    if s != [] {
      FilterAll(s[1..], p);
    }
  }

  /** A filter keeps nothing when no row qualifies. */
  lemma {:induction false} FilterNone<T>(s: seq<T>, p: T -> bool)
    requires forall x :: x in s ==> !p(x)
    ensures Filter(s, p) == []
  {
    if s != [] {
      FilterNone(s[1..], p);
    }
  }

  /** Filtering distributes over appending rows to a table. */
  lemma {:induction false} FilterAppend<T>(s: seq<T>, t: seq<T>, p: T -> bool)
    ensures Filter(s + t, p) == Filter(s, p) + Filter(t, p)
  {
    if s == [] {
      assert s + t == t;
    } else {
      assert (s + t)[1..] == s[1..] + t;
      FilterAppend(s[1..], t, p);
    }
  }

  /**
   * The first row that satisfies a query, or None
   * (`Entity.find { p }.firstOrNull()`).
   */
  function First<T>(s: seq<T>, p: T -> bool): (r: Option<T>)
    ensures r.Some? ==> r.value in s && p(r.value)
    ensures r.None? <==> forall x :: x in s ==> !p(x)
  {
    if s == [] then None
    else if p(s[0]) then Some(s[0])
    else First(s[1..], p)
  }

  /**
   * When at most one row satisfies the query (a unique index), First finds
   * that row, whatever the table order.
   */
  lemma {:induction false} FirstUnique<T>(s: seq<T>, p: T -> bool, x: T)
    requires x in s && p(x)
    requires forall y :: y in s && p(y) ==> y == x
    ensures First(s, p) == Some(x)
  {
    if s[0] != x {
      FirstUnique(s[1..], p, x);
    }
  }

  /** The elements of a sequence, as a set. */
  function Elements<T>(s: seq<T>): set<T>
  {
    set x | x in s
  }

  /**
   * A sequence has at least as many positions as distinct elements, and
   * exactly as many iff no element repeats.
   */
  lemma {:induction false} ElementsSize<T>(s: seq<T>)
    ensures |Elements(s)| <= |s|
    ensures |Elements(s)| == |s| <==> Distinct(s)
  {
    if s != [] {
      var rest := s[1..];
      ElementsSize(rest);
      assert Elements(s) == {s[0]} + Elements(rest);
      if s[0] in rest {
        assert Elements(s) == Elements(rest);
        var k :| 0 <= k < |rest| && rest[k] == s[0];
        assert s[0] == s[k + 1];
      } else {
        assert s[0] !in Elements(rest);
        if Distinct(rest) {
          forall i, j | 0 <= i < j < |s| ensures s[i] != s[j] {
            if i > 0 {
              assert s[i] == rest[i - 1] && s[j] == rest[j - 1];
            } else {
              assert s[j] == rest[j - 1];
            }
          }
        }
        if Distinct(s) {
          forall i, j | 0 <= i < j < |rest| ensures rest[i] != rest[j] {
            assert rest[i] == s[i + 1] && rest[j] == s[j + 1];
          }
        }
      }
    }
  }

  /** In a sequence without repeats every element occurs exactly once. */
  lemma {:induction false} DistinctMultiplicity<T>(s: seq<T>, x: T)
    requires Distinct(s)
    ensures multiset(s)[x] == if x in s then 1 else 0
  {
    if s != [] {
      assert s == [s[0]] + s[1..];
      assert Distinct(s[1..]) by {
        forall i, j | 0 <= i < j < |s[1..]| ensures s[1..][i] != s[1..][j] {
          assert s[1..][i] == s[i + 1] && s[1..][j] == s[j + 1];
        }
      }
      DistinctMultiplicity(s[1..], x);
    }
  }

  /** Two sequences without repeats that hold the same elements are permutations of each other. */
  lemma DistinctSameElements<T>(a: seq<T>, b: seq<T>)
    requires Distinct(a) && Distinct(b)
    requires Elements(a) == Elements(b)
    ensures multiset(a) == multiset(b)
  {
    forall x
      ensures multiset(a)[x] == multiset(b)[x]
    {
      DistinctMultiplicity(a, x);
      DistinctMultiplicity(b, x);
      assert x in a <==> x in Elements(a);
      assert x in b <==> x in Elements(b);
    }
  }
}
