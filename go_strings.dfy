/**
 * The pieces of Go's `strings` and `regexp` packages that the query DSL
 * relies on, stated over `string` (a Go string is a byte string; every
 * character used by the DSL is ASCII, so one `char` stands for one byte).
 *
 * - `HasSep`/`Split` are `strings.Contains(s, "__")` and
 *   `strings.Split(s, "__")`, with their round trip.
 * - `QuoteMeta` is `regexp.QuoteMeta`, with its inverse.
 * - `KeyOrder` fixes one enumeration of a map's keys; Go leaves the
 *   iteration order of a map unspecified and any enumeration is one that
 *   Go may produce.
 */
module GoStrings {

  /** `strings.Contains(s, "__")` */
  predicate HasSep(s: string) {
    exists i :: 0 <= i < |s| - 1 && s[i] == '_' && s[i + 1] == '_'
  }

  /** `strings.Split(s, "__")`: cut at every leftmost, non-overlapping "__". */
  function Split(s: string): (parts: seq<string>)
    ensures |parts| >= 1
    decreases |s|
  {
    if |s| < 2 then [s]
    else if s[0] == '_' && s[1] == '_' then [""] + Split(s[2..])
    else
      var rest := Split(s[1..]);
      [[s[0]] + rest[0]] + rest[1..]
  }

  /** `strings.Join(parts, "__")` */
  function Join(parts: seq<string>): string
    requires |parts| >= 1
  {
    if |parts| == 1 then parts[0] else parts[0] + "__" + Join(parts[1..])
  }

  /** Joining the pieces of a split gives the string back. */
  lemma {:induction false} JoinSplit(s: string)
    ensures Join(Split(s)) == s
    decreases |s|
  {
    if |s| < 2 {
    } else if s[0] == '_' && s[1] == '_' {
      JoinSplit(s[2..]);
      assert s == "__" + s[2..];
    } else {
      JoinSplit(s[1..]);
      JoinCons(s[0], Split(s[1..]));
      assert s == [s[0]] + s[1..];
    }
  }

  /** A character put in front of the first piece ends up in front of the
      joined string. */
  lemma JoinCons(c: char, parts: seq<string>)
    requires |parts| >= 1
    ensures Join([[c] + parts[0]] + parts[1..]) == [c] + Join(parts)
  {
    var ps := [[c] + parts[0]] + parts[1..];
    assert ps[1..] == parts[1..];
  }

  /** A string is split into more than one piece exactly when it contains "__". */
  lemma {:induction false} SplitHasSep(s: string)
    ensures |Split(s)| > 1 <==> HasSep(s)
    ensures !HasSep(s) ==> Split(s) == [s]
    decreases |s|
  {
    if |s| < 2 {
    } else if s[0] == '_' && s[1] == '_' {
      assert HasSep(s) by { assert s[0] == '_' && s[1] == '_'; }
    } else {
      SplitHasSep(s[1..]);
      var t := s[1..];
      if HasSep(s) {
        var i :| 0 <= i < |s| - 1 && s[i] == '_' && s[i + 1] == '_';
        assert i > 0;
        assert t[i - 1] == '_' && t[i] == '_';
      }
      if HasSep(t) {
        var i :| 0 <= i < |t| - 1 && t[i] == '_' && t[i + 1] == '_';
        assert s[i + 1] == '_' && s[i + 2] == '_';
      }
      if !HasSep(s) {
        assert [s[0]] + t == s;
      }
    }
  }

  /** A field name that holds no "__" and does not end in '_' is cut off
      exactly at the separator that follows it. */
  lemma {:induction false} SplitAfterField(f: string, rest: string)
    requires !HasSep(f)
    requires |f| == 0 || f[|f| - 1] != '_'
    ensures Split(f + "__" + rest) == [f] + Split(rest)
    decreases |f|
  {
    if |f| == 0 {
      assert f + "__" + rest == "__" + rest;
      assert ("__" + rest)[2..] == rest;
    } else {
      var s := f + "__" + rest;
      var f' := f[1..];
      assert s[1..] == f' + "__" + rest;
      if |f| == 1 {
        assert s[1] == '_';
        assert s[0] != '_';
      } else {
        assert s[0] == f[0] && s[1] == f[1];
        assert !(f[0] == '_' && f[1] == '_');
      }
      SplitAfterField(f', rest);
      assert [s[0]] + f' == f;
    }
  }

  /** Two strings without "__" join without one, unless the first ends in
      '_' and the second starts with '_'. */
  lemma NoSepConcat(a: string, b: string)
    requires !HasSep(a) && !HasSep(b)
    requires |a| == 0 || |b| == 0 || a[|a| - 1] != '_' || b[0] != '_'
    ensures !HasSep(a + b)
  {
  }

  /** A string without '_' holds no "__". */
  lemma NoUnderscoreNoSep(s: string)
    requires '_' !in s
    ensures !HasSep(s)
  {
  }

  /** `strings.HasSuffix(s, suffix)` */
  predicate HasSuffix(s: string, suffix: string) {
    |suffix| <= |s| && s[|s| - |suffix|..] == suffix
  }

  /** `strings.Index(s, string(c))`: the first position of `c`, or -1. */
  function IndexOf(s: string, c: char): (r: int)
    ensures -1 <= r < |s|
    ensures r == -1 <==> c !in s
    ensures r >= 0 ==> s[r] == c && c !in s[..r]
  {
    if |s| == 0 then -1
    else if s[0] == c then 0
    else
      var r := IndexOf(s[1..], c);
      assert s[1..][..if r < 0 then 0 else r] == s[1..if r < 0 then 1 else r + 1];
      if r < 0 then -1 else r + 1
  }

  /** The bytes that `regexp.QuoteMeta` escapes: \.+*?()|[]{}^$ */
  predicate IsRegexSpecial(c: char) {
    c in {'\\', '.', '+', '*', '?', '(', ')', '|', '[', ']', '{', '}', '^', '$'}
  }

  /** `regexp.QuoteMeta(s)`: every special byte gets a backslash in front. */
  function QuoteMeta(s: string): string {
    if |s| == 0 then ""
    else (if IsRegexSpecial(s[0]) then ['\\', s[0]] else [s[0]]) + QuoteMeta(s[1..])
  }

  /** Reads a quoted literal back: a backslash makes the next byte literal. */
  function Unquote(s: string): string
    decreases |s|
  {
    if |s| == 0 then ""
    else if s[0] == '\\' && |s| >= 2 then [s[1]] + Unquote(s[2..])
    else [s[0]] + Unquote(s[1..])
  }

  /** The escaped literal reads back as the original text, and every byte left
      unescaped is an ordinary one. */
  lemma {:induction false} QuoteMetaRoundTrip(s: string)
    ensures Unquote(QuoteMeta(s)) == s
    ensures |QuoteMeta(s)| >= |s|
    ensures (forall c | c in s :: !IsRegexSpecial(c)) ==> QuoteMeta(s) == s
  {
    if |s| > 0 {
      QuoteMetaRoundTrip(s[1..]);
      var q := QuoteMeta(s[1..]);
      if IsRegexSpecial(s[0]) {
        assert QuoteMeta(s) == ['\\', s[0]] + q;
        assert (['\\', s[0]] + q)[2..] == q;
      } else {
        assert QuoteMeta(s) == [s[0]] + q;
        assert ([s[0]] + q)[1..] == q;
        assert s[0] != '\\';
      }
      assert s == [s[0]] + s[1..];
    }
  }

  // ---------------------------------------------------------------------
  // An enumeration of a finite set of strings (ascending code order).

  /** Strict lexicographic order on strings. */
  predicate StrLt(a: string, b: string)
    decreases |a|
  {
    if |a| == 0 then |b| > 0
    else |b| > 0 && (a[0] < b[0] || (a[0] == b[0] && StrLt(a[1..], b[1..])))
  }

  lemma {:induction false} StrLtTotal(a: string, b: string)
    ensures a == b || StrLt(a, b) || StrLt(b, a)
    decreases |a|
  {
    if |a| > 0 && |b| > 0 && a[0] == b[0] {
      StrLtTotal(a[1..], b[1..]);
      assert a == [a[0]] + a[1..] && b == [b[0]] + b[1..];
    }
  }

  lemma {:induction false} StrLtAsym(a: string, b: string)
    ensures !(StrLt(a, b) && StrLt(b, a))
    decreases |a|
  {
    if |a| > 0 && |b| > 0 && a[0] == b[0] {
      StrLtAsym(a[1..], b[1..]);
    }
  }

  lemma {:induction false} StrLtTrans(a: string, b: string, c: string)
    requires StrLt(a, b) && StrLt(b, c)
    ensures StrLt(a, c)
    decreases |a|
  {
    if |a| > 0 && a[0] == b[0] && b[0] == c[0] {
      StrLtTrans(a[1..], b[1..], c[1..]);
    }
  }

  predicate IsLeast(m: string, keys: set<string>) {
    m in keys && forall k | k in keys :: k == m || StrLt(m, k)
  }

  lemma {:induction false} LeastExists(keys: set<string>)
    requires keys != {}
    ensures exists m :: IsLeast(m, keys)
    decreases keys
  {
    var x :| x in keys;
    if keys == {x} {
      assert IsLeast(x, keys);
    } else {
      LeastExists(keys - {x});
      var m :| IsLeast(m, keys - {x});
      StrLtTotal(m, x);
      if StrLt(m, x) {
        assert IsLeast(m, keys);
      } else {
        forall k | k in keys ensures k == x || StrLt(x, k) {
          if k != x && k != m {
            StrLtTrans(x, m, k);
          }
        }
        assert IsLeast(x, keys);
      }
    }
  }

  lemma LeastUnique(m1: string, m2: string, keys: set<string>)
    requires IsLeast(m1, keys) && IsLeast(m2, keys)
    ensures m1 == m2
  {
    StrLtAsym(m1, m2);
  }

  function LeastKey(keys: set<string>): (m: string)
    requires keys != {}
    ensures IsLeast(m, keys)
  {
    LeastExists(keys);
    assert forall m1, m2 :: IsLeast(m1, keys) && IsLeast(m2, keys) ==> m1 == m2 by {
      forall m1, m2 | IsLeast(m1, keys) && IsLeast(m2, keys) ensures m1 == m2 {
        LeastUnique(m1, m2, keys);
      }
    }
    var m :| IsLeast(m, keys);
    m
  }

  /** One enumeration of `keys`: every key exactly once. */
  function KeyOrder(keys: set<string>): (ks: seq<string>)
    ensures |ks| == |keys|
    ensures forall i | 0 <= i < |ks| :: ks[i] in keys
    ensures forall k | k in keys :: k in ks
    decreases keys
  {
    if keys == {} then []
    else
      var m := LeastKey(keys);
      var rest := KeyOrder(keys - {m});
      assert forall k | k in keys && k != m :: k in rest;
      [m] + rest
  }

  /** No key is visited twice. */
  lemma {:induction false} KeyOrderDistinct(keys: set<string>)
    ensures forall i, j | 0 <= i < j < |KeyOrder(keys)| :: KeyOrder(keys)[i] != KeyOrder(keys)[j]
    decreases keys
  {
    if keys != {} {
      var m := LeastKey(keys);
      var rest := KeyOrder(keys - {m});
      KeyOrderDistinct(keys - {m});
      assert KeyOrder(keys) == [m] + rest;
      assert m !in rest;
    }
  }
}
