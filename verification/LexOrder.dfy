/** Lexicographic order on sequences of code units: the order of Rust's `BTreeMap<String, _>` and of `encode_utf16().cmp`. */
module LexOrder {
  import opened Unicode

  predicate Less(a: seq<nat>, b: seq<nat>) {
    if b == [] then false
    else if a == [] then true
    else a[0] < b[0] || (a[0] == b[0] && Less(a[1..], b[1..]))
  }

  /** The sequences agree before position `k`, where the first ends or has the smaller element. */
  predicate SmallerAt(a: seq<nat>, b: seq<nat>, k: nat) {
    && k <= |a| && k < |b| && a[..k] == b[..k]
    && (k == |a| || a[k] < b[k])
  }

  lemma {:induction false} LessIff(a: seq<nat>, b: seq<nat>)
    ensures Less(a, b) <==> exists k: nat :: SmallerAt(a, b, k)
  {
    if a == [] || b == [] {
      assert a == [] && b != [] ==> SmallerAt(a, b, 0);
    } else {
      LessIff(a[1..], b[1..]);
      forall k: nat ensures SmallerAt(a, b, k) <==>
          if k == 0 then a[0] < b[0] else a[0] == b[0] && SmallerAt(a[1..], b[1..], k - 1)
      {
        SmallerAtTail(a, b, k);
      }
      hide SmallerAt;
      if a[0] == b[0] && Less(a[1..], b[1..]) {
        var k: nat :| SmallerAt(a[1..], b[1..], k);
        assert SmallerAt(a, b, k + 1);
      } else if a[0] < b[0] {
        assert SmallerAt(a, b, 0);
      }
    }
  }

  lemma SmallerAtTail(a: seq<nat>, b: seq<nat>, k: nat)
    requires a != [] && b != []
    ensures SmallerAt(a, b, k) <==> if k == 0 then a[0] < b[0] else a[0] == b[0] && SmallerAt(a[1..], b[1..], k - 1)
  {
    if 0 < k <= |a| && k < |b| {
      assert a[..k] == [a[0]] + a[1..][..k - 1] && b[..k] == [b[0]] + b[1..][..k - 1];
    }
  }

  lemma {:induction false} Irreflexive(a: seq<nat>)
    ensures !Less(a, a)
  {
    if a != [] {
      Irreflexive(a[1..]);
    }
  }

  lemma {:induction false} Transitive(a: seq<nat>, b: seq<nat>, c: seq<nat>)
    requires Less(a, b) && Less(b, c)
    ensures Less(a, c)
  {
    if a != [] && a[0] == b[0] && b[0] == c[0] {
      Transitive(a[1..], b[1..], c[1..]);
    }
  }

  lemma {:induction false} Total(a: seq<nat>, b: seq<nat>)
    ensures a == b || Less(a, b) || Less(b, a)
  {
    if a != [] && b != [] && a[0] == b[0] {
      Total(a[1..], b[1..]);
      assert a == [a[0]] + a[1..] && b == [b[0]] + b[1..];
    }
  }

  /** The order of Rust strings: their UTF-8 bytes, compared one by one. */
  predicate StringLess(s: string, t: string) {
    Less(Utf8(s), Utf8(t))
  }

  lemma StringOrderIsTotal(s: string, t: string)
    ensures s == t || StringLess(s, t) || StringLess(t, s)
  {
    Total(Utf8(s), Utf8(t));
    if Utf8(s) == Utf8(t) {
      Utf8Injective(s, t);
    }
  }

  predicate IsLeast(names: set<string>, m: string) {
    m in names && forall n :: n in names && n != m ==> StringLess(m, n)
  }

  /** The first key a `BTreeMap` with these keys iterates over. */
  method Least(names: set<string>) returns (m: string)
    requires names != {}
    ensures IsLeast(names, m)
  {
    m :| m in names;
    var left := names - {m};
    while left != {}
      invariant left <= names && m in names && m !in left
      invariant forall n :: n in names && n !in left && n != m ==> StringLess(m, n)
      decreases |left|
    {
      var n :| n in left;
      StringOrderIsTotal(m, n);
      if StringLess(n, m) {
        forall k | k in names && k !in left && k != m ensures StringLess(n, k) {
          assert StringLess(m, k);
          Transitive(Utf8(n), Utf8(m), Utf8(k));
        }
        m := n;
      }
      left := left - {n};
    }
  }

  lemma LeastIsUnique(names: set<string>, m: string, n: string)
    requires IsLeast(names, m) && IsLeast(names, n)
    ensures m == n
  {
    if m != n {
      Transitive(Utf8(m), Utf8(n), Utf8(m));
      Irreflexive(Utf8(m));
    }
  }

  lemma LeastExists(names: set<string>)
    requires names != {}
    ensures exists m :: IsLeast(names, m)
    decreases |names|
  {
    var n :| n in names;
    var rest := names - {n};
    if rest == {} {
      assert forall k :: k in names ==> k == n || k in rest;
      assert IsLeast(names, n);
    } else {
      LeastExists(rest);
      var m :| IsLeast(rest, m);
      StringOrderIsTotal(m, n);
      if StringLess(m, n) {
        assert IsLeast(names, m);
      } else {
        assert StringLess(n, m);
        forall k | k in names && k != n ensures StringLess(n, k) {
          if k != m {
            assert k in rest && StringLess(m, k);
            Transitive(Utf8(n), Utf8(m), Utf8(k));
          }
        }
        assert IsLeast(names, n);
      }
    }
  }
}
