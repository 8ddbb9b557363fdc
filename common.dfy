/** Types and sequence helpers shared by every part of the reversed diagnostics server model. */
module Common {

  /** A value that may be absent; `None` stands for the source's `null`. */
  datatype Option<+T> = None | Some(value: T)

  /** The exceptions the modelled code throws, one constructor per exception type. */
  datatype Error =
    | ObjectDisposed       // ObjectDisposedException
    | TimeoutError         // TimeoutException
    | Cancelled            // OperationCanceledException / TaskCanceledException
    | KeyNotFound          // KeyNotFoundException from a dictionary indexer
    | InvalidOperation     // InvalidOperationException
    | ArgumentNull         // ArgumentNullException
    | FormatError          // FormatException from long.Parse
    | Overflow             // OverflowException from long.Parse
    | ArgumentOutOfRange   // ArgumentOutOfRangeException from the DateTime constructor
    | NullReference        // NullReferenceException

  /** The outcome of an operation that returns a value or throws. */
  datatype Result<+T> = Success(value: T) | Failure(error: Error)

  /** The outcome of an operation that returns nothing or throws. */
  datatype Status = Ok | Fail(error: Error)

  /** A runtime instance cookie: a 128-bit GUID. */
  type Guid = x: nat | x < 0x1_0000_0000_0000_0000_0000_0000_0000_0000

  /** An opaque stream: only its identity matters to the model. */
  type StreamId = nat

  // ---------------------------------------------------------------------------
  // Helpers on sequences

  /** No element occurs twice. */
  predicate Distinct<X(==)>(s: seq<X>) {
    forall i, j :: 0 <= i < j < |s| ==> s[i] != s[j]
  }

  /** `a` is what remains of `b` after deleting some of its elements. */
  predicate Subsequence<X(==)>(a: seq<X>, b: seq<X>)
    decreases |b|
  {
    if a == [] then true
    else if b == [] then false
    else if a[0] == b[0] then Subsequence(a[1..], b[1..])
    else Subsequence(a, b[1..])
  }

  lemma {:induction false} SubsequenceMembers<X>(a: seq<X>, b: seq<X>)
    requires Subsequence(a, b)
    ensures forall x :: x in a ==> x in b
    decreases |b|
  {
    if a != [] && b != [] {
      if a[0] == b[0] {
        SubsequenceMembers(a[1..], b[1..]);
        assert a == [a[0]] + a[1..];
      } else {
        SubsequenceMembers(a, b[1..]);
      }
    }
  }

  lemma {:induction false} SubsequenceDistinct<X>(a: seq<X>, b: seq<X>)
    requires Subsequence(a, b) && Distinct(b)
    ensures Distinct(a)
    decreases |b|
  {
    if a != [] && b != [] {
      if a[0] == b[0] {
        SubsequenceDistinct(a[1..], b[1..]);
        SubsequenceMembers(a[1..], b[1..]);
        forall j | 0 < j < |a| ensures a[0] != a[j] {
          assert a[j] in a[1..];
        }
      } else {
        SubsequenceDistinct(a, b[1..]);
      }
    }
  }

  lemma {:induction false} SubsequenceCons<X>(x: X, a: seq<X>, b: seq<X>)
    requires Subsequence(a, b)
    ensures Subsequence([x] + a, [x] + b)
  {
    assert ([x] + a)[1..] == a;
    assert ([x] + b)[1..] == b;
  }

  lemma {:induction false} SubsequenceSkip<X>(x: X, a: seq<X>, b: seq<X>)
    requires Subsequence(a, b)
    ensures Subsequence(a, [x] + b)
    decreases |a| + |b|, 1
  {
    assert ([x] + b)[1..] == b;
    if a != [] && a[0] == x {
      SubsequenceDropHead(a, b);
    }
  }

  lemma {:induction false} SubsequenceDropHead<X>(a: seq<X>, b: seq<X>)
    requires Subsequence(a, b) && a != []
    ensures Subsequence(a[1..], b)
    decreases |a| + |b|, 0
  {
    assert b != [];
    assert [b[0]] + b[1..] == b;
    if a[0] == b[0] {
      SubsequenceSkip(b[0], a[1..], b[1..]);
    } else {
      SubsequenceDropHead(a, b[1..]);
      SubsequenceSkip(b[0], a[1..], b[1..]);
    }
  }

  lemma {:induction false} SubsequenceReflexive<X>(a: seq<X>)
    ensures Subsequence(a, a)
    decreases |a|
  {
    if a != [] {
      SubsequenceReflexive(a[1..]);
    }
  }

  lemma DistinctDrop<X>(s: seq<X>, k: nat)
    requires Distinct(s) && k <= |s|
    ensures Distinct(s[k..])
  {
    forall i, j | 0 <= i < j < |s[k..]| ensures s[k..][i] != s[k..][j] {
      assert s[k..][i] == s[k + i] && s[k..][j] == s[k + j];
    }
  }

  /** List<T>.Remove: deletes the first occurrence of `x`, if any. */
  function RemoveFirst<X(==)>(s: seq<X>, x: X): (r: seq<X>)
    ensures x !in s ==> r == s
    ensures x in s ==> |r| == |s| - 1
  {
    if s == [] then []
    else if s[0] == x then s[1..]
    else [s[0]] + RemoveFirst(s[1..], x)
  }

  /** Removing an element that occurs once, after a prefix without it, cuts it out. */
  lemma {:induction false} RemoveFirstAfter<X>(a: seq<X>, x: X, b: seq<X>)
    requires x !in a
    ensures RemoveFirst(a + [x] + b, x) == a + b
    decreases |a|
  {
    if a != [] {
      assert (a + [x] + b)[1..] == a[1..] + [x] + b;
      RemoveFirstAfter(a[1..], x, b);
      assert [a[0]] + (a[1..] + b) == a + b;
    } else {
      assert (a + [x] + b)[1..] == b;
    }
  }
}
