/** Dotted names: `str.split(".")`, its inverse, and what a string suffix means for the parts. */
module Dotted {

  type Parts = seq<string>

  /** Puts a character in front of the first part. */
  function Push(c: char, parts: Parts): Parts
    requires |parts| > 0
  {
    [[c] + parts[0]] + parts[1..]
  }

  function Split(s: string): (parts: Parts)
    ensures |parts| > 0
  {
    if s == "" then [""]
    else if s[0] == '.' then [""] + Split(s[1..])
    else Push(s[0], Split(s[1..]))
  }

  function Join(parts: Parts): string
    requires |parts| > 0
  {
    if |parts| == 1 then parts[0] else parts[0] + "." + Join(parts[1..])
  }

  lemma PrependChar(c: char, first: string, rest: string)
    ensures [c] + (first + "." + rest) == ([c] + first) + "." + rest
  {
  }

  lemma JoinPush(c: char, parts: Parts)
    requires |parts| > 0
    ensures Join(Push(c, parts)) == [c] + Join(parts)
  {
    var pushed, first, rest := Push(c, parts), parts[0], parts[1..];
    assert pushed[1..] == rest && pushed[0] == [c] + first;
    if rest != [] {
      PrependChar(c, first, Join(rest));
    }
  }

  lemma {:induction false} JoinSplit(s: string)
    ensures Join(Split(s)) == s
  {
    if s != "" {
      JoinSplit(s[1..]);
      if s[0] == '.' {
        assert Split(s)[1..] == Split(s[1..]);
        assert s == "." + s[1..];
      } else {
        JoinPush(s[0], Split(s[1..]));
      }
    }
  }

  lemma PushConcat(c: char, xs: Parts, ys: Parts)
    requires |xs| > 0
    ensures Push(c, xs + ys) == Push(c, xs) + ys
  {
    assert (xs + ys)[1..] == xs[1..] + ys;
  }

  lemma {:induction false} SplitConcat(a: string, b: string)
    ensures Split(a + "." + b) == Split(a) + Split(b)
  {
    var s := a + "." + b;
    if a == "" {
      assert s[0] == '.' && s[1..] == b;
    } else {
      SplitConcat(a[1..], b);
      assert s[0] == a[0] && s[1..] == a[1..] + "." + b;
      if a[0] != '.' {
        PushConcat(a[0], Split(a[1..]), Split(b));
      } else {
        assert [""] + (Split(a[1..]) + Split(b)) == ([""] + Split(a[1..])) + Split(b);
      }
    }
  }

  /** A name without dots is its own only part. */
  lemma {:induction false} SplitLabel(s: string)
    requires '.' !in s
    ensures Split(s) == [s]
  {
    if s != "" {
      SplitLabel(s[1..]);
      assert s == [s[0]] + s[1..];
    }
  }

  lemma {:induction false} JoinConcat(xs: Parts, ys: Parts)
    requires |xs| > 0 && |ys| > 0
    ensures Join(xs + ys) == Join(xs) + "." + Join(ys)
  {
    if |xs| == 1 {
      assert (xs + ys)[1..] == ys;
    } else {
      JoinConcat(xs[1..], ys);
      assert (xs + ys)[1..] == xs[1..] + ys;
      assert Join(xs + ys) == xs[0] + "." + (Join(xs[1..]) + "." + Join(ys));
    }
  }

  predicate EndsWith(s: string, suffix: string) {
    |suffix| <= |s| && s[|s| - |suffix|..] == suffix
  }

  predicate ProperSuffix(short: Parts, long: Parts) {
    |short| < |long| && long[|long| - |short|..] == short
  }

  lemma SuffixHasParts(front: string, b: string)
    ensures ProperSuffix(Split(b), Split(front + "." + b))
  {
    SplitConcat(front, b);
  }

  lemma PartsMakeSuffix(a: string, front: Parts, b: string)
    requires |front| > 0 && Split(a) == front + Split(b)
    ensures a == Join(front) + "." + b
  {
    JoinConcat(front, Split(b));
    JoinSplit(a);
    JoinSplit(b);
  }

  lemma EndsWithFront(a: string, front: string, b: string)
    requires a == front + "." + b
    ensures EndsWith(a, "." + b)
  {
    assert a == front + ("." + b);
  }

  /** Ending in a dot and `b` is having the parts of `b` as a proper suffix of one's own. */
  lemma SuffixIsByParts(a: string, b: string)
    ensures EndsWith(a, "." + b) <==> ProperSuffix(Split(b), Split(a))
  {
    var xs, ys := Split(a), Split(b);
    if EndsWith(a, "." + b) {
      var front := a[..|a| - |b| - 1];
      assert front + "." + b == a by {
        assert front + ("." + b) == a;
        assert front + "." + b == front + ("." + b);
      }
      SuffixHasParts(front, b);
    }
    if ProperSuffix(ys, xs) {
      var front := xs[..|xs| - |ys|];
      assert xs == front + ys;
      PartsMakeSuffix(a, front, b);
      EndsWithFront(a, Join(front), b);
    }
  }

  lemma SplitInjective(a: string, b: string)
    requires Split(a) == Split(b)
    ensures a == b
  {
    JoinSplit(a);
    JoinSplit(b);
  }
}
