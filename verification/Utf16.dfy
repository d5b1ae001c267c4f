/** UTF-16 code units and the byte order `key.encode("utf-16-be")` that app/jobs_v22/digest.py sorts keys by. */
module Utf16 {
  import opened Base
  import opened Lexicographic

  /** One unit, or a surrogate pair above U+FFFF. */
  function UnitsOf(c: char): (u: seq<int>)
    ensures 1 <= |u| <= 2 && forall i | 0 <= i < |u| :: 0 <= u[i] < 0x10000
  {
    var code := c as int;
    if code < 0x10000 then [code]
    else [0xD800 + (code - 0x10000) / 0x400, 0xDC00 + (code - 0x10000) % 0x400]
  }

  function Units(s: string): (u: seq<int>)
    ensures AreUnits(u)
  {
    if s == "" then [] else UnitsOf(s[0]) + Units(s[1..])
  }

  predicate AreUnits(u: seq<int>) {
    forall i | 0 <= i < |u| :: 0 <= u[i] < 0x10000
  }

  /** Section 2.2 of RFC 2781, read backwards: a high and a low surrogate make one code, any other unit is one. */
  ghost function Decoded(u: seq<int>): seq<int> {
    if u == [] then []
    else if |u| >= 2 && 0xD800 <= u[0] <= 0xDBFF && 0xDC00 <= u[1] <= 0xDFFF
    then [0x10000 + (u[0] - 0xD800) * 1024 + (u[1] - 0xDC00)] + Decoded(u[2..])
    else [u[0]] + Decoded(u[1..])
  }

  lemma DecodesBack(c: char, rest: seq<int>)
    ensures Decoded(UnitsOf(c) + rest) == [c as int] + Decoded(rest)
  {
    var code, u := c as int, UnitsOf(c) + rest;
    if code >= 0x10000 {
      var above := code - 0x10000;
      assert above == 1024 * (above / 0x400) + above % 0x400 && above / 0x400 < 1024;
      assert u[2..] == rest;
    } else {
      assert u[1..] == rest && u[0] == code;
    }
  }

  /** The units are those of UTF-16: decoding them gives the code points of the string. */
  lemma {:induction false} UnitsDecode(s: string)
    ensures Decoded(Units(s)) == Codes(s)
  {
    if s != "" {
      UnitsDecode(s[1..]);
      DecodesBack(s[0], Units(s[1..]));
      assert Codes(s) == [s[0] as int] + Codes(s[1..]);
    }
  }

  /** Big-endian bytes. */
  function BigEndian(u: seq<int>): seq<int> {
    if u == [] then [] else [u[0] / 256, u[0] % 256] + BigEndian(u[1..])
  }

  /** The sort key comparison of the encoder. */
  predicate KeyLess(a: string, b: string) {
    LexLess(BigEndian(Units(a)), BigEndian(Units(b)))
  }

  /** Comparing bytes is comparing code units, as section 3.2.3 of RFC 8785 asks. */
  lemma {:induction false} BytesCompareLikeUnits(u: seq<int>, v: seq<int>)
    requires AreUnits(u) && AreUnits(v)
    ensures LexLess(BigEndian(u), BigEndian(v)) <==> LexLess(u, v)
  {
    if u != [] && v != [] {
      BytesCompareLikeUnits(u[1..], v[1..]);
      var a, b := BigEndian(u), BigEndian(v);
      assert a[1..][1..] == BigEndian(u[1..]) && b[1..][1..] == BigEndian(v[1..]);
      assert a[1..][0] == u[0] % 256 && b[1..][0] == v[0] % 256;
      assert u[0] == 256 * (u[0] / 256) + u[0] % 256 && v[0] == 256 * (v[0] / 256) + v[0] % 256;
    }
  }

  lemma {:induction false} BigEndianInjective(u: seq<int>, v: seq<int>)
    requires BigEndian(u) == BigEndian(v)
    ensures u == v
  {
    if u != [] && v != [] {
      var a, b := BigEndian(u), BigEndian(v);
      assert a[0] == b[0] && a[1] == b[1];
      assert a[2..] == BigEndian(u[1..]) && b[2..] == BigEndian(v[1..]);
      BigEndianInjective(u[1..], v[1..]);
      assert u == [u[0]] + u[1..] && v == [v[0]] + v[1..];
    }
  }

  lemma {:induction false} UnitsInjective(a: string, b: string)
    requires Units(a) == Units(b)
    ensures a == b
  {
    if a != "" && b != "" {
      var u := Units(a);
      assert u[0] == UnitsOf(a[0])[0] && u[0] == UnitsOf(b[0])[0];
      if |UnitsOf(a[0])| == 2 && |UnitsOf(b[0])| == 2 {
        assert u[1] == UnitsOf(a[0])[1] && u[1] == UnitsOf(b[0])[1];
      }
      assert a[0] as int == b[0] as int;
      assert u[|UnitsOf(a[0])|..] == Units(a[1..]) && u[|UnitsOf(b[0])|..] == Units(b[1..]);
      UnitsInjective(a[1..], b[1..]);
      assert a == [a[0]] + a[1..] && b == [b[0]] + b[1..];
    }
  }

  lemma KeyLessIrreflexive(a: string)
    ensures !KeyLess(a, a)
  {
    LexIrreflexive(BigEndian(Units(a)));
  }

  lemma KeyLessTransitive(a: string, b: string, c: string)
    requires KeyLess(a, b) && KeyLess(b, c)
    ensures KeyLess(a, c)
  {
    LexTransitive(BigEndian(Units(a)), BigEndian(Units(b)), BigEndian(Units(c)));
  }

  lemma KeyLessTotal(a: string, b: string)
    ensures a == b || KeyLess(a, b) || KeyLess(b, a)
  {
    LexTotal(BigEndian(Units(a)), BigEndian(Units(b)));
    if BigEndian(Units(a)) == BigEndian(Units(b)) {
      BigEndianInjective(Units(a), Units(b));
      UnitsInjective(a, b);
    }
  }

  // ---------------------------------------------------------------- sorted(item, key=...)

  ghost predicate KeysSorted(keys: seq<string>) {
    forall i, j | 0 <= i < j < |keys| :: KeyLess(keys[i], keys[j])
  }

  function InsertKey(key: string, keys: seq<string>): seq<string> {
    if keys == [] then [key]
    else if KeyLess(keys[0], key) then [keys[0]] + InsertKey(key, keys[1..])
    else [key] + keys
  }

  function SortKeys(keys: seq<string>): seq<string> {
    if keys == [] then [] else InsertKey(keys[0], SortKeys(keys[1..]))
  }

  lemma {:induction false} InsertKeyMembers(key: string, keys: seq<string>, k: string)
    ensures k in InsertKey(key, keys) <==> k == key || k in keys
  {
    if keys != [] {
      InsertKeyMembers(key, keys[1..], k);
      assert keys == [keys[0]] + keys[1..];
    }
  }

  lemma {:induction false} SortKeysMembers(keys: seq<string>, k: string)
    ensures k in SortKeys(keys) <==> k in keys
  {
    if keys != [] {
      SortKeysMembers(keys[1..], k);
      InsertKeyMembers(keys[0], SortKeys(keys[1..]), k);
      assert keys == [keys[0]] + keys[1..];
    }
  }

  lemma {:induction false} InsertKeySorted(key: string, keys: seq<string>)
    requires KeysSorted(keys) && key !in keys
    ensures KeysSorted(InsertKey(key, keys))
  {
    hide KeyLess;
    if keys != [] {
      if KeyLess(keys[0], key) {
        InsertKeySorted(key, keys[1..]);
        var rest := InsertKey(key, keys[1..]);
        forall i | 0 <= i < |rest| ensures KeyLess(keys[0], rest[i]) {
          InsertKeyMembers(key, keys[1..], rest[i]);
        }
      } else {
        KeyLessTotal(keys[0], key);
        forall i | 0 <= i < |keys| ensures KeyLess(key, keys[i]) {
          if i > 0 {
            KeyLessTransitive(key, keys[0], keys[i]);
          }
        }
      }
    }
  }

  lemma {:induction false} SortKeysSorted(keys: seq<string>)
    requires Distinct(keys)
    ensures KeysSorted(SortKeys(keys))
  {
    if keys != [] {
      SortKeysSorted(keys[1..]);
      SortKeysMembers(keys[1..], keys[0]);
      InsertKeySorted(keys[0], SortKeys(keys[1..]));
    }
  }

  /** A sorted list is determined by its members. */
  lemma {:induction false} SortedKeysUnique(a: seq<string>, b: seq<string>)
    requires KeysSorted(a) && KeysSorted(b)
    requires forall k :: k in a <==> k in b
    ensures a == b
  {
    hide KeyLess;
    if a == [] || b == [] {
      HeadIsMember(a);
      HeadIsMember(b);
    } else {
      HeadIsMember(a);
      HeadIsMember(b);
      LeastFirst(a, b[0]);
      LeastFirst(b, a[0]);
      if a[0] != b[0] {
        KeyLessTransitive(a[0], b[0], a[0]);
        KeyLessIrreflexive(a[0]);
        assert false;
      }
      forall k ensures k in a[1..] <==> k in b[1..] {
        TailKeys(a, k);
        TailKeys(b, k);
      }
      SortedKeysUnique(a[1..], b[1..]);
      assert a == [a[0]] + a[1..] && b == [b[0]] + b[1..];
    }
  }

  lemma HeadIsMember(a: seq<string>)
    ensures a != [] ==> a[0] in a
  {
  }

  lemma LeastFirst(a: seq<string>, k: string)
    requires KeysSorted(a) && k in a
    ensures a[0] == k || KeyLess(a[0], k)
  {
    var i :| 0 <= i < |a| && a[i] == k;
  }

  lemma TailKeys(a: seq<string>, k: string)
    requires KeysSorted(a) && a != []
    ensures k in a[1..] <==> k in a && k != a[0]
  {
    hide KeyLess;
    KeyLessIrreflexive(a[0]);
    if k in a && k != a[0] {
      var i :| 0 <= i < |a| && a[i] == k;
      assert a[1..][i - 1] == k;
    }
    if k in a[1..] {
      var i :| 0 <= i < |a[1..]| && a[1..][i] == k;
      assert KeyLess(a[0], a[i + 1]);
    }
  }
}
