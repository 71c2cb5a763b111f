/** The JavaScript string operations the calculators rely on: `trim`,
    `toLowerCase`, and the default order of `Array.prototype.sort` applied to
    the keys of a stored object (`Object.keys(store).sort()`). */
module JsText {

  /** The WhiteSpace and LineTerminator code points of ECMAScript, which
      `String.prototype.trim` removes from both ends. */
  predicate IsWhiteSpace(c: char) {
    || c == '\t' || c == '\n' || c == '\U{B}' || c == '\U{C}' || c == '\r' || c == ' '
    || c == '\U{A0}' || c == '\U{1680}' || ('\U{2000}' <= c <= '\U{200A}')
    || c == '\U{2028}' || c == '\U{2029}' || c == '\U{202F}' || c == '\U{205F}'
    || c == '\U{3000}' || c == '\U{FEFF}'
  }

  /** `s` with its leading white space removed. */
  function TrimStart(s: string): (r: string)
    ensures |r| <= |s|
  {
    if s != [] && IsWhiteSpace(s[0]) then TrimStart(s[1..]) else s
  }

  /** `s` with its trailing white space removed. */
  function TrimEnd(s: string): (r: string)
    ensures |r| <= |s|
  {
    if s != [] && IsWhiteSpace(s[|s| - 1]) then TrimEnd(s[..|s| - 1]) else s
  }

  /** `s.trim()`. */
  function Trim(s: string): (r: string)
    ensures |r| <= |s|
  {
    TrimEnd(TrimStart(s))
  }

  /** TrimStart removes exactly the leading run of white space. */
  lemma {:induction false} TrimStartShape(s: string)
    ensures TrimStart(s) == s[|s| - |TrimStart(s)|..]
    ensures TrimStart(s) == [] || !IsWhiteSpace(TrimStart(s)[0])
    ensures forall i :: 0 <= i < |s| - |TrimStart(s)| ==> IsWhiteSpace(s[i])
  {
    if s != [] && IsWhiteSpace(s[0]) {
      TrimStartShape(s[1..]);
    }
  }

  /** TrimEnd removes exactly the trailing run of white space. */
  lemma {:induction false} TrimEndShape(s: string)
    ensures TrimEnd(s) == s[..|TrimEnd(s)|]
    ensures TrimEnd(s) == [] || !IsWhiteSpace(TrimEnd(s)[|TrimEnd(s)| - 1])
    ensures forall i :: |TrimEnd(s)| <= i < |s| ==> IsWhiteSpace(s[i])
  {
    if s != [] && IsWhiteSpace(s[|s| - 1]) {
      TrimEndShape(s[..|s| - 1]);
    }
  }

  /** `s.trim()` is the longest infix of `s` that neither starts nor ends with
      white space; everything cut off on either side is white space. */
  lemma TrimShape(s: string)
    ensures var k := |s| - |TrimStart(s)|;
      && k + |Trim(s)| <= |s| && Trim(s) == s[k..k + |Trim(s)|]
      && (forall j :: 0 <= j < k ==> IsWhiteSpace(s[j]))
      && (forall j :: k + |Trim(s)| <= j < |s| ==> IsWhiteSpace(s[j]))
    ensures Trim(s) == [] || (!IsWhiteSpace(Trim(s)[0]) && !IsWhiteSpace(Trim(s)[|Trim(s)| - 1]))
  {
    var t := TrimStart(s);
    var r := TrimEnd(t);
    TrimStartShape(s);
    TrimEndShape(t);
    SliceOfSuffix(s, |s| - |t|, |r|);
  }

  lemma SliceOfSuffix(s: string, k: nat, n: nat)
    requires k + n <= |s|
    ensures s[k..][..n] == s[k..k + n]
  {
  }

  /** A string trims to "" exactly when it consists of white space only. */
  lemma TrimBlank(s: string)
    ensures Trim(s) == [] <==> forall i :: 0 <= i < |s| ==> IsWhiteSpace(s[i])
  {
    TrimShape(s);
    if forall i :: 0 <= i < |s| ==> IsWhiteSpace(s[i]) {
      BlankTrimsToEmpty(s);
    }
  }

  lemma {:induction false} BlankTrimsToEmpty(s: string)
    requires forall i :: 0 <= i < |s| ==> IsWhiteSpace(s[i])
    ensures TrimStart(s) == [] && Trim(s) == []
  {
    if s != [] {
      BlankTrimsToEmpty(s[1..]);
    }
  }

  /** Trimming twice is trimming once. */
  lemma TrimIdempotent(s: string)
    ensures Trim(Trim(s)) == Trim(s)
  {
    var r := Trim(s);
    TrimShape(s);
    if r != [] {
      assert TrimStart(r) == r;
      assert TrimEnd(r) == r;
    }
  }

  /** `c.toLowerCase()` for the ASCII letters; every other character is kept. */
  function LowerChar(c: char): char {
    if 'A' <= c <= 'Z' then (c as int + 32) as char else c
  }

  /** `s.toLowerCase()`, character by character. */
  function Lower(s: string): (r: string)
    ensures |r| == |s|
    ensures forall i :: 0 <= i < |s| ==> r[i] == LowerChar(s[i])
  {
    seq(|s|, i requires 0 <= i < |s| => LowerChar(s[i]))
  }

  /** Lower-casing is idempotent, and it leaves no ASCII capital behind. */
  lemma LowerIdempotent(s: string)
    ensures Lower(Lower(s)) == Lower(s)
    ensures forall i :: 0 <= i < |s| ==> !('A' <= Lower(s)[i] <= 'Z')
  {
  }

  /** The default comparison of `Array.prototype.sort` on strings:
      lexicographic, character by character; a proper prefix comes first. */
  predicate StrLess(a: string, b: string) {
    if a == [] then b != []
    else if b == [] then false
    else if a[0] != b[0] then a[0] < b[0]
    else StrLess(a[1..], b[1..])
  }

  lemma {:induction false} StrLessIrreflexive(a: string)
    ensures !StrLess(a, a)
  {
    if a != [] {
      StrLessIrreflexive(a[1..]);
    }
  }

  lemma {:induction false} StrLessTransitive(a: string, b: string, c: string)
    requires StrLess(a, b) && StrLess(b, c)
    ensures StrLess(a, c)
  {
    if a != [] && b != [] && c != [] && a[0] == b[0] == c[0] {
      StrLessTransitive(a[1..], b[1..], c[1..]);
    }
  }

  lemma {:induction false} StrLessTotal(a: string, b: string)
    ensures a == b || StrLess(a, b) || StrLess(b, a)
  {
    if a != [] && b != [] && a[0] == b[0] {
      StrLessTotal(a[1..], b[1..]);
      if a[1..] == b[1..] {
        assert a == [a[0]] + a[1..] && b == [b[0]] + b[1..];
      }
    }
  }

  lemma StrLessAsymmetric(a: string, b: string)
    requires StrLess(a, b)
    ensures !StrLess(b, a)
  {
    if StrLess(b, a) {
      StrLessTransitive(a, b, a);
      StrLessIrreflexive(a);
    }
  }

  /** `ks` is `Object.keys(store).sort()` for a store whose key set is `keys`:
      strictly increasing, and holding exactly the keys. */
  ghost predicate IsSortedKeyList(ks: seq<string>, keys: set<string>) {
    && (forall i, j :: 0 <= i < j < |ks| ==> StrLess(ks[i], ks[j]))
    && (forall k :: k in ks <==> k in keys)
  }

  /** The sorted key list is determined by the key set. */
  lemma {:induction false} SortedKeyListUnique(a: seq<string>, b: seq<string>, keys: set<string>)
    requires IsSortedKeyList(a, keys) && IsSortedKeyList(b, keys)
    ensures a == b
    decreases |a|
  {
    if a == [] {
      NoKeysNoList(b, keys);
    } else {
      assert a[0] in keys;
      assert b != [] by { assert a[0] in b; }
      if a[0] != b[0] {
        assert b[0] in a;
        var i :| 0 <= i < |a| && a[i] == b[0];
        var j :| 0 <= j < |b| && b[j] == a[0];
        assert StrLess(a[0], b[0]);
        assert StrLess(b[0], a[0]);
        StrLessAsymmetric(a[0], b[0]);
      }
      var rest := keys - {a[0]};
      forall k ensures k in a[1..] <==> k in rest {
        if k in a[1..] {
          var i :| 1 <= i < |a| && a[i] == k;
          assert StrLess(a[0], a[i]);
          if k == a[0] { StrLessIrreflexive(k); }
        }
        if k in rest {
          assert k in a;
        }
      }
      forall k ensures k in b[1..] <==> k in rest {
        if k in b[1..] {
          var i :| 1 <= i < |b| && b[i] == k;
          assert StrLess(b[0], b[i]);
          if k == b[0] { StrLessIrreflexive(k); }
        }
        if k in rest {
          assert k in b;
        }
      }
      SortedKeyListUnique(a[1..], b[1..], rest);
      assert a == [a[0]] + a[1..] && b == [b[0]] + b[1..];
    }
  }

  lemma NoKeysNoList(ks: seq<string>, keys: set<string>)
    requires forall k :: k in ks <==> k in keys
    ensures keys == {} ==> ks == []
  {
    if ks != [] {
      assert ks[0] in keys;
    }
  }

  /** Every non-empty finite set of strings has a least element. */
  lemma {:induction false} LeastKeyExists(keys: set<string>)
    requires keys != {}
    ensures exists m :: m in keys && forall k :: k in keys && k != m ==> StrLess(m, k)
    decreases keys
  {
    var x :| x in keys;
    if keys != {x} {
      LeastKeyExists(keys - {x});
      var m :| m in keys - {x} && forall k :: k in keys - {x} && k != m ==> StrLess(m, k);
      StrLessTotal(x, m);
      if StrLess(x, m) {
        forall k | k in keys && k != x ensures StrLess(x, k) {
          if k != m { StrLessTransitive(x, m, k); }
        }
        assert x in keys && forall k :: k in keys && k != x ==> StrLess(x, k);
      } else {
        assert m in keys && forall k :: k in keys && k != m ==> StrLess(m, k);
      }
    }
  }

  /** `Object.keys(store).sort()` for a store with key set `keys`. The library
      sort is modelled by selecting the least remaining key each round. */
  method SortedKeys(keys: set<string>) returns (ks: seq<string>)
    ensures IsSortedKeyList(ks, keys)
    ensures |ks| > 0 ==> forall k :: k in keys && k != ks[0] ==> StrLess(ks[0], k)
  {
    ks := [];
    var rest := keys;
    while rest != {}
      invariant forall k :: k in keys <==> (k in ks || k in rest)
      invariant forall k :: k in ks ==> k !in rest
      invariant forall i, j :: 0 <= i < j < |ks| ==> StrLess(ks[i], ks[j])
      invariant forall i, k :: 0 <= i < |ks| && k in rest ==> StrLess(ks[i], k)
      decreases rest
    {
      LeastKeyExists(rest);
      var m :| m in rest && forall k :: k in rest && k != m ==> StrLess(m, k);
      ks := ks + [m];
      rest := rest - {m};
    }
    if |ks| > 0 {
      forall k | k in keys && k != ks[0] ensures StrLess(ks[0], k) {
        var i :| 0 <= i < |ks| && ks[i] == k;
      }
    }
  }
}
