/** The few pieces of Go's `strings` package the core relies on: `HasPrefix`,
    `HasSuffix`, `TrimSuffix` and `Split` with a one-character separator, plus
    the decimal rendering `fmt.Sprint` gives an unsigned integer. */
module Strings {

  predicate HasPrefix(s: string, prefix: string) {
    |prefix| <= |s| && s[..|prefix|] == prefix
  }

  predicate HasSuffix(s: string, suffix: string) {
    |suffix| <= |s| && s[|s| - |suffix|..] == suffix
  }

  lemma PrefixOfConcat(p: string, rest: string)
    ensures HasPrefix(p + rest, p) && (p + rest)[|p|..] == rest
  {
    assert (p + rest)[..|p|] == p;
  }

  /** `strings.TrimSuffix`: removes one copy of `suffix`, if present. */
  function TrimSuffix(s: string, suffix: string): (r: string)
    ensures HasSuffix(s, suffix) ==> r + suffix == s
    ensures !HasSuffix(s, suffix) ==> r == s
  {
    if HasSuffix(s, suffix) then s[..|s| - |suffix|] else s
  }

  /** `strings.Split(s, string(sep))`: the maximal pieces between separators.
      There is always at least one piece and no piece holds the separator. */
  function Split(s: string, sep: char): (parts: seq<string>)
    ensures |parts| >= 1
    ensures forall i :: 0 <= i < |parts| ==> sep !in parts[i]
    decreases |s|
  {
    if s == [] then [""]
    else
      var rest := Split(s[1..], sep);
      if s[0] == sep then [""] + rest
      else [[s[0]] + rest[0]] + rest[1..]
  }

  /** `strings.Join(parts, string(sep))`, the inverse of Split. */
  function Join(parts: seq<string>, sep: char): string
    requires |parts| >= 1
  {
    if |parts| == 1 then parts[0] else parts[0] + [sep] + Join(parts[1..], sep)
  }

  lemma {:induction false} JoinSplit(s: string, sep: char)
    ensures Join(Split(s, sep), sep) == s
    decreases |s|
  {
    if s != [] {
      JoinSplit(s[1..], sep);
      var rest := Split(s[1..], sep);
      assert s == [s[0]] + s[1..];
      if s[0] == sep {
        assert ([""] + rest)[1..] == rest;
      } else if |rest| > 1 {
        assert ([[s[0]] + rest[0]] + rest[1..])[1..] == rest[1..];
      }
    }
  }

  lemma {:induction false} SplitNoSeparator(s: string, sep: char)
    requires sep !in s
    ensures Split(s, sep) == [s]
    decreases |s|
  {
    if s != [] {
      SplitNoSeparator(s[1..], sep);
      assert s == [s[0]] + s[1..];
    }
  }

  /** Splitting at the first separator: the part before it, then the rest. */
  lemma {:induction false} SplitAtFirst(a: string, sep: char, b: string)
    requires sep !in a
    ensures Split(a + [sep] + b, sep) == [a] + Split(b, sep)
    decreases |a|
  {
    var s := a + [sep] + b;
    if a == [] {
      assert s[1..] == b;
    } else {
      assert s[1..] == a[1..] + [sep] + b;
      SplitAtFirst(a[1..], sep, b);
      assert [a[0]] + a[1..] == a;
    }
  }

  lemma {:induction false} SplitJoin(parts: seq<string>, sep: char)
    requires |parts| >= 1
    requires forall i :: 0 <= i < |parts| ==> sep !in parts[i]
    ensures Split(Join(parts, sep), sep) == parts
    decreases |parts|
  {
    if |parts| == 1 {
      SplitNoSeparator(parts[0], sep);
    } else {
      SplitJoin(parts[1..], sep);
      SplitAtFirst(parts[0], sep, Join(parts[1..], sep));
      assert [parts[0]] + parts[1..] == parts;
    }
  }

  /** A string splits into two or more pieces exactly when it holds the separator. */
  lemma SplitHasSeveralParts(s: string, sep: char)
    ensures sep in s <==> |Split(s, sep)| >= 2
  {
    if sep in s {
      var i :| 0 <= i < |s| && s[i] == sep && forall j :: 0 <= j < i ==> s[j] != sep by {
        FirstOccurrence(s, sep);
      }
      assert s == s[..i] + [sep] + s[i + 1..];
      SplitAtFirst(s[..i], sep, s[i + 1..]);
    } else {
      SplitNoSeparator(s, sep);
    }
  }

  lemma FirstOccurrence(s: string, c: char)
    requires c in s
    ensures exists i :: 0 <= i < |s| && s[i] == c && forall j :: 0 <= j < i ==> s[j] != c
  {
    var k := 0;
    while s[k] != c
      invariant 0 <= k < |s|
      invariant forall j :: 0 <= j < k ==> s[j] != c
      invariant c in s[k..]
      decreases |s| - k
    {
      assert s[k..] == [s[k]] + s[k + 1..];
      k := k + 1;
    }
  }

  /** After a prefix that is empty or ends with the separator, a piece
      without the separator is the last one `Split` gives. */
  lemma {:induction false} LastPieceAfter(dir: string, segment: string, sep: char)
    requires dir == [] || dir[|dir| - 1] == sep
    requires sep !in segment
    ensures Split(dir + segment, sep)[|Split(dir + segment, sep)| - 1] == segment
    decreases |dir|
  {
    var s := dir + segment;
    if dir == [] {
      assert s == segment;
      SplitNoSeparator(segment, sep);
    } else {
      assert s[1..] == dir[1..] + segment;
      if |dir| == 1 {
        assert s[1..] == segment;
        SplitNoSeparator(segment, sep);
      } else {
        LastPieceAfter(dir[1..], segment, sep);
        assert s[1..][|dir| - 2] == sep;
        SplitHasSeveralParts(s[1..], sep);
      }
    }
  }

  /** The digits of `n` in base 10, most significant first. */
  function DecimalString(n: nat): (r: string)
    ensures |r| >= 1
    ensures forall i :: 0 <= i < |r| ==> '0' <= r[i] <= '9'
  {
    if n < 10 then [(n + '0' as int) as char]
    else DecimalString(n / 10) + [(n % 10 + '0' as int) as char]
  }
}
