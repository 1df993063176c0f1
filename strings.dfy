/** The JavaScript string operations the source relies on: `startsWith`, `Array.prototype.join`
    and `String.prototype.split` with a one-character separator. Strings are sequences of
    characters. */
module Strings {

  /** `s.startsWith(p)` */
  predicate StartsWith(s: string, p: string) {
    |p| <= |s| && s[..|p|] == p
  }

  /** `s.endsWith(t)` */
  predicate EndsWith(s: string, t: string) {
    |t| <= |s| && s[|s| - |t|..] == t
  }

  /** `t` occurs in `s` as a contiguous piece. */
  predicate Contains(s: string, t: string) {
    exists k :: 0 <= k <= |s| - |t| && StartsWith(s[k..], t)
  }

  /** `parts.join(sep)`: the parts with `sep` between neighbours. */
  function Join(parts: seq<string>, sep: string): string {
    if |parts| == 0 then ""
    else if |parts| == 1 then parts[0]
    else Join(parts[..|parts| - 1], sep) + sep + parts[|parts| - 1]
  }

  /** `s.split(c)`: the pieces between occurrences of `c`; there is always at least one piece
      and no piece contains `c`. */
  function Split(s: string, c: char): (r: seq<string>)
    ensures |r| >= 1
    ensures forall i :: 0 <= i < |r| ==> c !in r[i]
  {
    if s == [] then [""]
    else
      var rest := Split(s[1..], c);
      if s[0] == c then [""] + rest else [[s[0]] + rest[0]] + rest[1..]
  }

  /** Joining two non-empty lists of parts puts one separator between the two joins. */
  lemma {:induction false} JoinAppend(a: seq<string>, b: seq<string>, sep: string)
    requires a != [] && b != []
    ensures Join(a + b, sep) == Join(a, sep) + sep + Join(b, sep)
  {
    var ab := a + b;
    assert ab[..|ab| - 1] == a + b[..|b| - 1];
    if |b| > 1 {
      JoinAppend(a, b[..|b| - 1], sep);
    } else {
      assert a + b[..|b| - 1] == a;
    }
  }

  /** Joining with one part in front. */
  lemma JoinCons(x: string, rest: seq<string>, sep: string)
    requires rest != []
    ensures Join([x] + rest, sep) == x + sep + Join(rest, sep)
  {
    JoinAppend([x], rest, sep);
  }

  /** Splitting a string without the separator gives the string back as the only piece. */
  lemma {:induction false} SplitWithoutSeparator(s: string, c: char)
    requires c !in s
    ensures Split(s, c) == [s]
  {
    if s != [] {
      SplitWithoutSeparator(s[1..], c);
      assert [s[0]] + s[1..] == s;
    }
  }

  /** `s.split(c).join(c) === s`: joining the pieces with the separator restores the string. */
  lemma {:induction false} JoinSplit(s: string, c: char)
    ensures Join(Split(s, c), [c]) == s
  {
    if s != [] {
      JoinSplit(s[1..], c);
      var rest := Split(s[1..], c);
      if s[0] == c {
        assert Join(Split(s, c), [c]) == s by {
          SplitStep(s, c);
          JoinCons("", rest, [c]);
          assert s == [c] + s[1..];
        }
      } else {
        assert Join(Split(s, c), [c]) == s by {
          SplitStep(s, c);
          JoinGlued(s[0], rest, [c]);
          assert s == [s[0]] + s[1..];
        }
      }
    }
  }

  /** Gluing a character to the front of the first part glues it to the front of the join. */
  lemma JoinGlued(x: char, rest: seq<string>, sep: string)
    requires rest != []
    ensures Join([[x] + rest[0]] + rest[1..], sep) == [x] + Join(rest, sep)
  {
    var head, tail := rest[0], rest[1..];
    if tail == [] {
      assert Join(rest, sep) == head;
    } else {
      var j := Join(tail, sep);
      JoinCons([x] + head, tail, sep);
      assert rest == [head] + tail;
      JoinCons(head, tail, sep);
      assert ([x] + head) + sep + j == [x] + (head + sep + j);
    }
  }

  /** One unfolding of `Split` at the first character. */
  lemma SplitStep(s: string, c: char)
    requires s != []
    ensures s[0] == c ==> Split(s, c) == [""] + Split(s[1..], c)
    ensures s[0] != c ==> Split(s, c) == [[s[0]] + Split(s[1..], c)[0]] + Split(s[1..], c)[1..]
  {
  }

  /** A separator in the middle of a string splits it into the pieces of both sides. */
  lemma {:induction false} SplitConcat(a: string, b: string, c: char)
    ensures Split(a + [c] + b, c) == Split(a, c) + Split(b, c)
  {
    var s := a + [c] + b;
    if a == [] {
      assert s[1..] == b;
    } else {
      assert s[1..] == a[1..] + [c] + b;
      SplitConcat(a[1..], b, c);
    }
  }

  /** A separator-free prefix is glued to the first piece. */
  lemma {:induction false} SplitPrefix(p: string, x: string, c: char)
    requires c !in p
    ensures Split(p + x, c) == [p + Split(x, c)[0]] + Split(x, c)[1..]
  {
    if p != [] {
      var s := p + x;
      assert s[1..] == p[1..] + x;
      assert s[0] == p[0] != c;
      SplitPrefix(p[1..], x, c);
      var rest := Split(s[1..], c);
      assert rest == [p[1..] + Split(x, c)[0]] + Split(x, c)[1..];
      assert Split(s, c) == [[s[0]] + rest[0]] + rest[1..];
      assert [p[0]] + (p[1..] + Split(x, c)[0]) == p + Split(x, c)[0];
    } else {
      assert p + x == x;
      assert p + Split(x, c)[0] == Split(x, c)[0];
      assert Split(x, c) == [Split(x, c)[0]] + Split(x, c)[1..];
    }
  }

  /** Each element of `xs` with `q` in front of it. */
  function Prefixed(q: string, xs: seq<string>): (r: seq<string>)
    ensures |r| == |xs|
    ensures forall i :: 0 <= i < |xs| ==> r[i] == q + xs[i]
  {
    seq(|xs|, i requires 0 <= i < |xs| => q + xs[i])
  }

  /** `Prefixed` of one more element. */
  lemma PrefixedSnoc(q: string, xs: seq<string>, y: string)
    ensures Prefixed(q, xs + [y]) == Prefixed(q, xs) + [q + y]
  {
  }

  /** Joining separator-free parts with `c + q` and splitting again at `c` gives the first
      part, then every later part with `q` in front of it. */
  lemma {:induction false} SplitJoin(parts: seq<string>, q: string, c: char)
    requires parts != []
    requires forall i :: 0 <= i < |parts| ==> c !in parts[i]
    requires c !in q
    ensures Split(Join(parts, [c] + q), c) == [parts[0]] + Prefixed(q, parts[1..])
  {
    var n := |parts|;
    if n == 1 {
      SplitWithoutSeparator(parts[0], c);
    } else {
      var init := parts[..n - 1];
      var last := parts[n - 1];
      SplitJoin(init, q, c);
      var j := Join(init, [c] + q);
      assert Join(parts, [c] + q) == j + ([c] + q) + last;
      assert j + ([c] + q) + last == j + [c] + (q + last);
      SplitConcat(j, q + last, c);
      SplitWithoutSeparator(q + last, c);
      assert parts[1..] == init[1..] + [last];
      PrefixedSnoc(q, init[1..], last);
      assert init[0] == parts[0];
    }
  }
}
