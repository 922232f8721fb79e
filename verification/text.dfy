/** String operations of Python's `str` used by the modelled code: `split` on one
    separator character, `join`, `startswith`, `in`, `strip`, and `str(int)`. */
module Text {

  /** `s.split(c)`: the pieces between occurrences of `c`; never empty, and no piece
      holds `c`. */
  function Split(s: string, c: char): (parts: seq<string>)
    ensures |parts| >= 1
    decreases |s|
  {
    var i := IndexOf(s, c);
    if i == |s| then [s] else [s[..i]] + Split(s[i + 1..], c)
  }

  /** `sep.join(parts)`. */
  function Join(parts: seq<string>, sep: string): string
  {
    if |parts| == 0 then ""
    else if |parts| == 1 then parts[0]
    else parts[0] + sep + Join(parts[1..], sep)
  }

  /** Four pieces joined. */
  lemma JoinFour(a: string, b: string, c: string, d: string, sep: string)
    ensures Join([a, b, c, d], sep) == a + sep + (b + sep + (c + sep + d))
  {
    assert [c, d][1..] == [d];
    assert Join([c, d], sep) == c + sep + d;
    assert [b, c, d][1..] == [c, d];
    assert Join([b, c, d], sep) == b + sep + (c + sep + d);
    assert [a, b, c, d][1..] == [b, c, d];
  }

  /** Five pieces joined. */
  lemma JoinFive(a: string, b: string, c: string, d: string, e: string, sep: string)
    ensures Join([a, b, c, d, e], sep) == a + sep + (b + sep + (c + sep + (d + sep + e)))
  {
    assert [a, b, c, d, e][1..] == [b, c, d, e];
    JoinFour(b, c, d, e, sep);
  }

  /** Joining the pieces of a split with the same separator gives the text back. */
  lemma {:induction false} JoinSplit(s: string, c: char)
    ensures Join(Split(s, c), [c]) == s
    decreases |s|
  {
    var i := IndexOf(s, c);
    if i < |s| {
      var rest := Split(s[i + 1..], c);
      JoinSplit(s[i + 1..], c);
      assert Split(s, c) == [s[..i]] + rest;
      assert Join([s[..i]] + rest, [c]) == s[..i] + [c] + Join(rest, [c]);
      assert s == s[..i] + [c] + s[i + 1..];
    }
  }

  /** Splitting around a separator character splits both sides independently. */
  lemma {:induction false} SplitAround(a: string, b: string, c: char)
    ensures Split(a + [c] + b, c) == Split(a, c) + Split(b, c)
    decreases |a|
  {
    var i := IndexOf(a, c);
    if i < |a| {
      SplitAround(a[i + 1..], b, c);
      SplitAroundAt(a, b, c, i);
    } else {
      SplitAroundEnd(a, b, c);
    }
  }

  /** `IndexOf` is pinned down by the first occurrence. */
  lemma IndexOfIs(s: string, c: char, i: nat)
    requires i <= |s| && c !in s[..i] && (i < |s| ==> s[i] == c)
    ensures IndexOf(s, c) == i
  {
  }

  lemma SplitAtFirst(s: string, c: char, i: nat)
    requires i < |s| && IndexOf(s, c) == i
    ensures Split(s, c) == [s[..i]] + Split(s[i + 1..], c)
  {
  }

  lemma SlicesAround(a: string, b: string, c: char, i: nat)
    requires i < |a|
    ensures (a + [c] + b)[..i] == a[..i]
    ensures (a + [c] + b)[i + 1..] == a[i + 1..] + [c] + b
  {
  }

  lemma SplitAroundAt(a: string, b: string, c: char, i: nat)
    requires i < |a| && a[i] == c && c !in a[..i]
    requires Split(a[i + 1..] + [c] + b, c) == Split(a[i + 1..], c) + Split(b, c)
    ensures Split(a + [c] + b, c) == Split(a, c) + Split(b, c)
  {
    var s := a + [c] + b;
    var x, p, q := a[..i], Split(a[i + 1..], c), Split(b, c);
    SlicesAround(a, b, c, i);
    IndexOfIs(s, c, i);
    IndexOfIs(a, c, i);
    SplitAtFirst(s, c, i);
    SplitAtFirst(a, c, i);
    AppendAssoc([x], p, q);
  }

  lemma AppendAssoc<T>(x: seq<T>, p: seq<T>, q: seq<T>)
    ensures x + (p + q) == (x + p) + q
  {
  }

  lemma ConsTail<T>(s: seq<T>)
    requires s != []
    ensures [s[0]] + s[1..] == s
  {
  }

  lemma SplitAroundEnd(a: string, b: string, c: char)
    requires c !in a
    ensures Split(a + [c] + b, c) == Split(a, c) + Split(b, c)
  {
    var s := a + [c] + b;
    assert s[..|a|] == a;
    assert s[|a| + 1..] == b;
    IndexOfIs(s, c, |a|);
    IndexOfIs(a, c, |a|);
  }

  /** A text without the separator is a single piece. */
  lemma SplitNoSeparator(s: string, c: char)
    requires c !in s
    ensures Split(s, c) == [s]
  {
    assert IndexOf(s, c) == |s|;
  }

  /** No piece of a split holds the separator. */
  lemma {:induction false} SplitPieces(s: string, c: char)
    ensures forall k :: 0 <= k < |Split(s, c)| ==> c !in Split(s, c)[k]
    decreases |s|
  {
    var i := IndexOf(s, c);
    if i < |s| {
      SplitPieces(s[i + 1..], c);
      assert Split(s, c) == [s[..i]] + Split(s[i + 1..], c);
    }
  }

  predicate StartsWith(s: string, prefix: string)
  {
    |prefix| <= |s| && s[..|prefix|] == prefix
  }

  /** `sub` occurs in `s` at offset `i`. */
  predicate At(s: string, sub: string, i: nat)
  {
    i + |sub| <= |s| && s[i..i + |sub|] == sub
  }

  /** Every text of `subs` occurs in `s`, each after the end of the one before. */
  predicate OccursInOrder(s: string, subs: seq<string>)
    decreases |subs|
  {
    subs == [] || exists i: nat | i <= |s| :: At(s, subs[0], i) && OccursInOrder(s[i + |subs[0]|..], subs[1..])
  }

  /** Text written in front keeps the occurrences. */
  lemma {:induction false} OccursInOrderPrefix(p: string, s: string, subs: seq<string>)
    requires OccursInOrder(s, subs)
    ensures OccursInOrder(p + s, subs)
  {
    if subs != [] {
      var i: nat :| i <= |s| && At(s, subs[0], i) && OccursInOrder(s[i + |subs[0]|..], subs[1..]);
      assert i + |subs[0]| <= |s|;
      assert (p + s)[|p| + i..|p| + i + |subs[0]|] == s[i..i + |subs[0]|];
      assert (p + s)[|p| + i + |subs[0]|..] == s[i + |subs[0]|..];
      assert At(p + s, subs[0], |p| + i);
    }
  }

  /** Occurrences in two texts are occurrences, in order, in the two together. */
  lemma {:induction false} OccursInOrderConcat(x: string, xs: seq<string>, y: string, ys: seq<string>)
    requires OccursInOrder(x, xs) && OccursInOrder(y, ys)
    ensures OccursInOrder(x + y, xs + ys)
    decreases |xs|
  {
    if xs == [] {
      assert xs + ys == ys;
      OccursInOrderPrefix(x, y, ys);
    } else {
      var i: nat :| i <= |x| && At(x, xs[0], i) && OccursInOrder(x[i + |xs[0]|..], xs[1..]);
      var k := i + |xs[0]|;
      OccursInOrderConcat(x[k..], xs[1..], y, ys);
      ConcatSlices(x, y, i, k);
      OccursInOrderStep(x + y, i, xs[0], xs[1..] + ys);
      assert [xs[0]] + (xs[1..] + ys) == xs + ys;
    }
  }

  lemma ConcatSlices(x: string, y: string, i: nat, k: nat)
    requires i <= k <= |x|
    ensures (x + y)[i..k] == x[i..k] && (x + y)[k..] == x[k..] + y
  {
  }

  /** An occurrence followed by occurrences after it starts a longer run. */
  lemma OccursInOrderStep(s: string, i: nat, sub: string, subs: seq<string>)
    requires At(s, sub, i) && OccursInOrder(s[i + |sub|..], subs)
    ensures OccursInOrder(s, [sub] + subs)
  {
    assert ([sub] + subs)[0] == sub && ([sub] + subs)[1..] == subs;
  }

  /** `sep.join(parts)` holds every part, in order. */
  lemma {:induction false} OccursInOrderJoin(parts: seq<string>, sep: string)
    ensures OccursInOrder(Join(parts, sep), parts)
    decreases |parts|
  {
    if parts != [] {
      var j := Join(parts, sep);
      if |parts| == 1 {
        assert j[0..|parts[0]|] == parts[0] && parts[1..] == [];
      } else {
        var rest := Join(parts[1..], sep);
        OccursInOrderJoin(parts[1..], sep);
        OccursInOrderPrefix(sep, rest, parts[1..]);
        assert j == parts[0] + (sep + rest);
        assert j[0..|parts[0]|] == parts[0] && j[|parts[0]|..] == sep + rest;
      }
      OccursInOrderStep(j, 0, parts[0], parts[1..]);
      assert [parts[0]] + parts[1..] == parts;
    }
  }

  /** `sub in s` for strings. */
  predicate Contains(s: string, sub: string)
  {
    StartsWith(s, sub) || (s != [] && Contains(s[1..], sub))
  }

  /** A text that contains `sub` contains every character of `sub`. */
  lemma {:induction false} ContainsChar(s: string, sub: string, k: nat)
    requires Contains(s, sub) && k < |sub|
    ensures sub[k] in s
  {
    if StartsWith(s, sub) {
      assert s[k] == sub[k];
    } else {
      ContainsChar(s[1..], sub, k);
      assert sub[k] in s[1..];
    }
  }

  lemma {:induction false} ContainsLength(s: string, sub: string)
    requires Contains(s, sub)
    ensures |sub| <= |s|
  {
    if !StartsWith(s, sub) {
      ContainsLength(s[1..], sub);
    }
  }

  /** A text contains a text of its own length only when the two are equal. */
  lemma ContainsSameLength(s: string, sub: string)
    requires Contains(s, sub) && |s| == |sub|
    ensures s == sub
  {
    if !StartsWith(s, sub) {
      ContainsLength(s[1..], sub);
    }
  }

  /** Python's `str.isspace` for the ASCII whitespace characters. */
  predicate IsSpace(ch: char)
  {
    ch == ' ' || ch == '\t' || ch == '\n' || ch == '\r' || ch == '\U{B}' || ch == '\U{C}'
  }

  /** `s.lstrip()`. */
  function LStrip(s: string): string
  {
    if s != [] && IsSpace(s[0]) then LStrip(s[1..]) else s
  }

  /** What `lstrip` leaves is a suffix that does not start with a blank. */
  lemma {:induction false} LStripShape(s: string)
    ensures |LStrip(s)| <= |s| && LStrip(s) == s[|s| - |LStrip(s)|..]
    ensures LStrip(s) == [] || !IsSpace(LStrip(s)[0])
  {
    if s != [] && IsSpace(s[0]) {
      LStripShape(s[1..]);
      assert s[1..][|s| - 1 - |LStrip(s)|..] == s[|s| - |LStrip(s)|..];
    }
  }

  /** `s.rstrip()`. */
  function RStrip(s: string): string
  {
    if s != [] && IsSpace(s[|s| - 1]) then RStrip(s[..|s| - 1]) else s
  }

  /** What `rstrip` leaves is a prefix that does not end with a blank. */
  lemma {:induction false} RStripShape(s: string)
    ensures |RStrip(s)| <= |s| && RStrip(s) == s[..|RStrip(s)|]
    ensures RStrip(s) == [] || !IsSpace(RStrip(s)[|RStrip(s)| - 1])
  {
    if s != [] && IsSpace(s[|s| - 1]) {
      RStripShape(s[..|s| - 1]);
      assert s[..|s| - 1][..|RStrip(s)|] == s[..|RStrip(s)|];
    }
  }

  /** `s.strip()`. */
  function Strip(s: string): string
  {
    RStrip(LStrip(s))
  }

  /** The decimal digit for `d`. */
  function DigitChar(d: nat): (c: char)
    requires d < 10
    ensures '0' <= c <= '9' && c as int - '0' as int == d
  {
    ('0' as int + d) as char
  }

  /** `str(n)` for a natural number: its decimal digits. */
  function NatToString(n: nat): (r: string)
    ensures |r| >= 1
    decreases n
  {
    if n < 10 then [DigitChar(n)] else NatToString(n / 10) + [DigitChar(n % 10)]
  }

  /** `str(i)` for an integer. */
  function IntToString(i: int): string
  {
    if i < 0 then "-" + NatToString(-i) else NatToString(i)
  }

  /** The index of the first occurrence of `c` in `s`, or `|s|`. */
  function IndexOf(s: string, c: char): (i: nat)
    ensures i <= |s|
    ensures i < |s| ==> s[i] == c
    ensures c !in s[..i]
  {
    if s == [] then 0
    else if s[0] == c then 0
    else
      var j := IndexOf(s[1..], c);
      assert s[..j + 1] == [s[0]] + s[1..][..j];
      1 + j
  }
}
