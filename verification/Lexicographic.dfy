/** Byte order on strings, as the database compares text. */
module Lexicographic {
  /** `s < t` in the order of the first differing character, a proper prefix being less. */
  predicate LexLess(s: string, t: string) {
    if t == "" then false
    else if s == "" then true
    else s[0] < t[0] || (s[0] == t[0] && LexLess(s[1..], t[1..]))
  }

  lemma SameHead(s: string, t: string, k: nat)
    requires 0 < k <= |s| && k <= |t| && s[..k] == t[..k]
    ensures s[0] == t[0]
  {
    assert s[..k][0] == t[..k][0];
  }

  /** `s` is less exactly if it is a proper prefix of `t` or has the lesser character where the two
      first differ. */
  lemma {:induction false} LexLessIff(s: string, t: string)
    ensures LexLess(s, t) <==>
            exists k :: 0 <= k <= |s| && k < |t| && s[..k] == t[..k] && (k == |s| || s[k] < t[k])
  {
    if s == "" || t == "" {
      assert t != "" ==> s[..0] == t[..0];
    } else if s[0] == t[0] {
      LexLessIff(s[1..], t[1..]);
      if LexLess(s[1..], t[1..]) {
        var k :| 0 <= k <= |s[1..]| && k < |t[1..]| && s[1..][..k] == t[1..][..k] && (k == |s[1..]| || s[1..][k] < t[1..][k]);
        assert s[..k + 1] == [s[0]] + s[1..][..k] && t[..k + 1] == [t[0]] + t[1..][..k];
      }
      if k :| 0 <= k <= |s| && k < |t| && s[..k] == t[..k] && (k == |s| || s[k] < t[k]) {
        assert k > 0;
        assert s[1..][..k - 1] == s[..k][1..] && t[1..][..k - 1] == t[..k][1..];
        assert k == |s| || s[1..][k - 1] < t[1..][k - 1];
      }
    } else {
      if k :| 0 <= k <= |s| && k < |t| && s[..k] == t[..k] && (k == |s| || s[k] < t[k]) {
        if k > 0 {
          SameHead(s, t, k);
        }
      }
      assert s[..0] == t[..0];
    }
  }

  lemma {:induction false} Irreflexive(s: string)
    ensures !LexLess(s, s)
  {
    if s != "" {
      Irreflexive(s[1..]);
    }
  }

  lemma {:induction false} Asymmetric(s: string, t: string)
    requires LexLess(s, t)
    ensures !LexLess(t, s)
  {
    if s != "" && s[0] == t[0] {
      Asymmetric(s[1..], t[1..]);
    }
  }

  /** Blocks of equal width compare block by block. */
  lemma {:induction false} LexConcat(a: string, b: string, c: string, d: string)
    requires |a| == |c|
    ensures LexLess(a + b, c + d) <==> LexLess(a, c) || (a == c && LexLess(b, d))
  {
    if a == "" {
      assert a + b == b && c + d == d;
    } else {
      assert (a + b)[1..] == a[1..] + b && (c + d)[1..] == c[1..] + d;
      assert a[1..] == c[1..] && a[0] == c[0] ==> a == c;
      LexConcat(a[1..], b, c[1..], d);
    }
  }

  /** Equal beginnings do not matter. */
  lemma LexSame(a: string, b: string, d: string)
    ensures LexLess(a + b, a + d) <==> LexLess(b, d)
  {
    LexConcat(a, b, a, d);
    Irreflexive(a);
  }

  /** Three fields of equal widths, separated alike. */
  function Joined(a: string, b: string, c: string, sep: string): string {
    a + (sep + (b + (sep + c)))
  }

  lemma LexJoined(a: string, b: string, c: string, x: string, y: string, z: string, sep: string)
    requires |a| == |x| && |b| == |y|
    ensures LexLess(Joined(a, b, c, sep), Joined(x, y, z, sep)) <==>
            LexLess(a, x) || (a == x && (LexLess(b, y) || (b == y && LexLess(c, z))))
  {
    LexConcat(a, sep + (b + (sep + c)), x, sep + (y + (sep + z)));
    LexSame(sep, b + (sep + c), y + (sep + z));
    LexConcat(b, sep + c, y, sep + z);
    LexSame(sep, c, z);
  }

  /** Field by field in order is in order when joined. */
  lemma JoinedOrder(a: string, b: string, c: string, x: string, y: string, z: string, sep: string)
    requires |a| == |x| && |b| == |y|
    requires LexLess(a, x) || (a == x && LexLess(b, y)) || (a == x && b == y && LexLess(c, z))
    ensures LexLess(Joined(a, b, c, sep), Joined(x, y, z, sep))
  {
    LexJoined(a, b, c, x, y, z, sep);
  }
}
