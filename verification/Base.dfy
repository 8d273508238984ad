/** Shared vocabulary: results, bounded integers, and the byte-wise order behind every ordered map. */
module Base {

  datatype Option<+T> = None | Some(value: T)

  /** The error cases of `SfsError` that the modelled code returns, without their message text. */
  datatype Error =
    | NotFound
    | NotADirectory
    | IsADirectory
    | AlreadyExists
    | DirectoryNotEmpty
    | InvalidPath
    | OverBudget
    | WorkspaceClosed
    | RequestMismatch
    | HeadConflict
    | HostDrift
    | Io
    | Corruption

  datatype Result<+T> = Ok(value: T) | Err(error: Error)

  type byte = x: nat | x < 0x100
  type u32 = x: nat | x < 0x1_0000_0000

  /** Strings are their UTF-8 bytes, which is also how the program compares and hashes them. */
  type Str = seq<byte>

  // ---- lexicographic order ----

  /** The order of byte strings: a proper prefix comes first. */
  predicate LexLt(a: seq<int>, b: seq<int>) {
    if |b| == 0 then false
    else if |a| == 0 then true
    else if a[0] != b[0] then a[0] < b[0]
    else LexLt(a[1..], b[1..])
  }

  lemma {:induction false} LexTotal(a: seq<int>, b: seq<int>)
    ensures LexLt(a, b) || a == b || LexLt(b, a)
  {
    if |a| > 0 && |b| > 0 && a[0] == b[0] {
      LexTotal(a[1..], b[1..]);
      assert a == [a[0]] + a[1..] && b == [b[0]] + b[1..];
    }
  }

  lemma {:induction false} LexIrreflexive(a: seq<int>)
    ensures !LexLt(a, a)
  {
    if |a| > 0 {
      LexIrreflexive(a[1..]);
    }
  }

  lemma {:induction false} LexTransitive(a: seq<int>, b: seq<int>, c: seq<int>)
    requires LexLt(a, b) && LexLt(b, c)
    ensures LexLt(a, c)
  {
    if |a| > 0 && a[0] == b[0] == c[0] {
      LexTransitive(a[1..], b[1..], c[1..]);
    }
  }

  lemma {:induction false} LexPrefix(a: seq<int>, b: seq<int>)
    requires |a| < |b| && a <= b
    ensures LexLt(a, b)
  {
    if |a| > 0 {
      LexPrefix(a[1..], b[1..]);
    }
  }

  // ---- ordered iteration over a set ----

  ghost predicate InjectiveOn<T>(s: set<T>, key: T -> seq<int>) {
    forall x, y | x in s && y in s :: key(x) == key(y) ==> x == y
  }

  predicate IsLeast<T(==)>(x: T, s: set<T>, key: T -> seq<int>) {
    x in s && forall y | y in s && y != x :: LexLt(key(x), key(y))
  }

  lemma {:induction false} LeastExists<T(!new)>(s: set<T>, key: T -> seq<int>)
    requires s != {} && InjectiveOn(s, key)
    ensures exists x :: IsLeast(x, s, key)
  {
    var z :| z in s;
    var rest := s - {z};
    if rest == {} {
      assert s == {z};
      assert IsLeast(z, s, key);
    } else {
      LeastExists(rest, key);
      var m :| IsLeast(m, rest, key);
      LexTotal(key(m), key(z));
      if LexLt(key(m), key(z)) {
        assert IsLeast(m, s, key);
      } else {
        forall y | y in s && y != z
          ensures LexLt(key(z), key(y))
        {
          if y != m {
            LexTransitive(key(z), key(m), key(y));
          }
        }
        assert IsLeast(z, s, key);
      }
    }
  }

  lemma LeastUnique<T(!new)>(x: T, y: T, s: set<T>, key: T -> seq<int>)
    requires IsLeast(x, s, key) && IsLeast(y, s, key)
    ensures x == y
  {
    if x != y {
      LexTransitive(key(x), key(y), key(x));
      LexIrreflexive(key(x));
    }
  }

  function Least<T(==, !new)>(s: set<T>, key: T -> seq<int>): (x: T)
    requires s != {} && InjectiveOn(s, key)
    ensures IsLeast(x, s, key)
  {
    LeastExists(s, key);
    assert forall x, y | IsLeast(x, s, key) && IsLeast(y, s, key) :: x == y by {
      forall x, y | IsLeast(x, s, key) && IsLeast(y, s, key) ensures x == y {
        LeastUnique(x, y, s, key);
      }
    }
    var x :| x in s && IsLeast(x, s, key);
    x
  }

  /** The elements of `s` in increasing order of `key`: how a `BTreeMap` or `BTreeSet` is iterated. */
  function SortedBy<T(==, !new)>(s: set<T>, key: T -> seq<int>): (r: seq<T>)
    requires InjectiveOn(s, key)
    ensures forall x :: x in r <==> x in s
  {
    if s == {} then []
    else
      var x := Least(s, key);
      [x] + SortedBy(s - {x}, key)
  }

  ghost predicate Ascending<T>(r: seq<T>, key: T -> seq<int>) {
    forall i, j | 0 <= i < j < |r| :: LexLt(key(r[i]), key(r[j]))
  }

  lemma {:induction false} SortedByAscends<T(!new)>(s: set<T>, key: T -> seq<int>)
    requires InjectiveOn(s, key)
    ensures Ascending(SortedBy(s, key), key)
    ensures |SortedBy(s, key)| == |s|
  {
    if s != {} {
      var x := Least(s, key);
      SortedByAscends(s - {x}, key);
      assert forall y | y in SortedBy(s - {x}, key) :: LexLt(key(x), key(y));
    }
  }
}
