/** Text operations of the Python standard library that the modelled code
    relies on, written over `string` (a sequence of code points). */
module Strings {

  /** `sep.join(parts)`. */
  function Join(parts: seq<string>, sep: string): string
    decreases |parts|
  {
    if |parts| == 0 then ""
    else if |parts| == 1 then parts[0]
    else parts[0] + sep + Join(parts[1..], sep)
  }

  /** `"".join(parts)`. */
  function Concat(parts: seq<string>): string
    decreases |parts|
  {
    if |parts| == 0 then "" else parts[0] + Concat(parts[1..])
  }

  /** Joining one more fragment extends the joined text by exactly that
      fragment, so earlier fragments always form a prefix. */
  lemma {:induction false} ConcatAppend(parts: seq<string>, s: string)
    ensures Concat(parts + [s]) == Concat(parts) + s
    decreases |parts|
  {
    if |parts| == 0 {
      assert parts + [s] == [s];
    } else {
      assert (parts + [s])[1..] == parts[1..] + [s];
      ConcatAppend(parts[1..], s);
    }
  }

  /** Two fragments joined are the one followed by the other. */
  lemma ConcatPair(a: string, b: string)
    ensures Concat([a, b]) == a + b
  {
    ConcatAppend([], a);
    assert [] + [a] == [a];
    ConcatAppend([a], b);
    assert [a] + [b] == [a, b];
  }

  /** Joining two runs of fragments is joining each and then concatenating. */
  lemma {:induction false} ConcatSplit(a: seq<string>, b: seq<string>)
    ensures Concat(a + b) == Concat(a) + Concat(b)
    decreases |a|
  {
    if |a| == 0 {
      assert a + b == b;
    } else {
      assert (a + b)[1..] == a[1..] + b;
      ConcatSplit(a[1..], b);
    }
  }

  /** The outputs of `f` on each item, concatenated in item order: what a
      loop that appends `f(x)` for every `x` builds. */
  function FlatMap<T>(f: T -> seq<string>, xs: seq<T>): seq<string>
    decreases |xs|
  {
    if |xs| == 0 then [] else FlatMap(f, xs[..|xs| - 1]) + f(xs[|xs| - 1])
  }

  lemma {:induction false} FlatMapAppend<T>(f: T -> seq<string>, a: seq<T>, b: seq<T>)
    ensures FlatMap(f, a + b) == FlatMap(f, a) + FlatMap(f, b)
    decreases |b|
  {
    if |b| == 0 {
      assert a + b == a;
    } else {
      FlatMapAppend(f, a, b[..|b| - 1]);
      assert (a + b)[..|a + b| - 1] == a + b[..|b| - 1];
      assert (a + b)[|a + b| - 1] == b[|b| - 1];
    }
  }

  /** An item with no output can be dropped: the items before it are
      followed directly by the items after it. */
  lemma FlatMapSkipsEmpty<T>(f: T -> seq<string>, xs: seq<T>, i: int)
    requires 0 <= i < |xs| && f(xs[i]) == []
    ensures FlatMap(f, xs) == FlatMap(f, xs[..i]) + FlatMap(f, xs[i + 1..])
  {
    var before, item, after := xs[..i], [xs[i]], xs[i + 1..];
    assert xs == before + (item + after);
    FlatMapAppend(f, before, item + after);
    FlatMapAppend(f, item, after);
    assert item[..0] == [];
    assert FlatMap(f, item) == [] + f(xs[i]);
    assert FlatMap(f, item + after) == FlatMap(f, after);
  }

  /** Every output item comes from some input item. */
  lemma {:induction false} FlatMapMembers<T>(f: T -> seq<string>, xs: seq<T>, q: string)
    ensures q in FlatMap(f, xs) <==> exists k :: 0 <= k < |xs| && q in f(xs[k])
    decreases |xs|
  {
    if |xs| > 0 {
      var init := xs[..|xs| - 1];
      FlatMapMembers(f, init, q);
      assert forall k :: 0 <= k < |init| ==> init[k] == xs[k];
      if exists k :: 0 <= k < |xs| && q in f(xs[k]) {
        var k :| 0 <= k < |xs| && q in f(xs[k]);
        if k < |init| {
          assert q in f(init[k]);
        }
      }
    }
  }

  predicate StartsWith(s: string, prefix: string)
  {
    |prefix| <= |s| && s[..|prefix|] == prefix
  }

  predicate EndsWith(s: string, suffix: string)
  {
    |suffix| <= |s| && s[|s| - |suffix|..] == suffix
  }

  /** Python's `needle in haystack` for strings, as a scan. */
  predicate Contains(haystack: string, needle: string)
    decreases |haystack|
  {
    StartsWith(haystack, needle) || (|haystack| > 0 && Contains(haystack[1..], needle))
  }

  /** The declarative meaning of substring containment: some position of the
      haystack starts with the needle. */
  ghost predicate OccursAt(haystack: string, needle: string, i: int)
  {
    0 <= i <= |haystack| && StartsWith(haystack[i..], needle)
  }

  lemma {:induction false} OccurrenceIsContained(haystack: string, needle: string, i: int)
    requires OccursAt(haystack, needle, i)
    ensures Contains(haystack, needle)
    decreases i
  {
    if i == 0 {
      assert haystack[0..] == haystack;
    } else {
      assert haystack[1..][i - 1..] == haystack[i..];
      OccurrenceIsContained(haystack[1..], needle, i - 1);
    }
  }

  lemma {:induction false} ContainedHasOccurrence(haystack: string, needle: string)
    requires Contains(haystack, needle)
    ensures exists i :: OccursAt(haystack, needle, i)
    decreases |haystack|
  {
    if StartsWith(haystack, needle) {
      assert haystack[0..] == haystack;
      assert OccursAt(haystack, needle, 0);
    } else {
      ContainedHasOccurrence(haystack[1..], needle);
      var j :| OccursAt(haystack[1..], needle, j);
      assert haystack[1..][j..] == haystack[j + 1..];
      assert OccursAt(haystack, needle, j + 1);
    }
  }

  /** The scan agrees with the declarative meaning, in both directions. */
  lemma ContainsIsOccurrence(haystack: string, needle: string)
    ensures Contains(haystack, needle) <==> exists i :: OccursAt(haystack, needle, i)
  {
    if Contains(haystack, needle) {
      ContainedHasOccurrence(haystack, needle);
    }
    forall i | OccursAt(haystack, needle, i) ensures Contains(haystack, needle) {
      OccurrenceIsContained(haystack, needle, i);
    }
  }

  /** A text containing `needle` contains its first character. */
  lemma {:induction false} ContainsFirstChar(haystack: string, needle: string)
    requires |needle| > 0 && Contains(haystack, needle)
    ensures needle[0] in haystack
    decreases |haystack|
  {
    if !StartsWith(haystack, needle) {
      ContainsFirstChar(haystack[1..], needle);
    } else {
      assert haystack[0] == needle[0];
    }
  }

  /** A needle longer than the text never occurs in it. */
  lemma {:induction false} ContainsIsShorter(haystack: string, needle: string)
    requires Contains(haystack, needle)
    ensures |needle| <= |haystack|
    decreases |haystack|
  {
    if !StartsWith(haystack, needle) {
      ContainsIsShorter(haystack[1..], needle);
    }
  }

  /** `s.replace(c, repl)` for a one-character pattern `c`. */
  function ReplaceChar(s: string, c: char, repl: string): string
    decreases |s|
  {
    if |s| == 0 then ""
    else (if s[0] == c then repl else [s[0]]) + ReplaceChar(s[1..], c, repl)
  }

  lemma {:induction false} ReplaceCharAppend(a: string, b: string, c: char, repl: string)
    ensures ReplaceChar(a + b, c, repl) == ReplaceChar(a, c, repl) + ReplaceChar(b, c, repl)
    decreases |a|
  {
    if |a| == 0 {
      assert a + b == b;
    } else {
      assert (a + b)[1..] == a[1..] + b;
      ReplaceCharAppend(a[1..], b, c, repl);
    }
  }

  /** Replacing by a single character keeps every position and rewrites
      exactly the occurrences of `c`. */
  lemma {:induction false} ReplaceCharPointwise(s: string, c: char, d: char)
    ensures |ReplaceChar(s, c, [d])| == |s|
    ensures forall i :: 0 <= i < |s| ==>
      ReplaceChar(s, c, [d])[i] == (if s[i] == c then d else s[i])
    decreases |s|
  {
    if |s| > 0 {
      ReplaceCharPointwise(s[1..], c, d);
    }
  }

  /** `s.split(c)` for a one-character separator: always at least one
      field, the fields never contain `c`. */
  function Split(s: string, c: char): (fields: seq<string>)
    ensures |fields| >= 1
    decreases |s|
  {
    if |s| == 0 then [""]
    else
      var rest := Split(s[1..], c);
      if s[0] == c then [""] + rest else [[s[0]] + rest[0]] + rest[1..]
  }

  /** Splitting loses nothing: the fields joined again by `c` give back
      `s`, and no field contains the separator. */
  lemma {:induction false} SplitJoin(s: string, c: char)
    ensures Join(Split(s, c), [c]) == s
    ensures forall k :: 0 <= k < |Split(s, c)| ==> c !in Split(s, c)[k]
    decreases |s|
  {
    if |s| > 0 {
      var rest := Split(s[1..], c);
      SplitJoin(s[1..], c);
      if s[0] == c {
        assert ([""] + rest)[1..] == rest;
      } else {
        var fields := [[s[0]] + rest[0]] + rest[1..];
        assert fields[1..] == rest[1..];
        if |rest| > 1 {
          assert Join(rest, [c]) == rest[0] + [c] + Join(rest[1..], [c]);
        }
        forall k | 0 <= k < |fields| ensures c !in fields[k] {
          if k > 0 { assert fields[k] == rest[k]; }
        }
      }
    }
  }

  /** There is a second field exactly when the separator occurs. */
  lemma {:induction false} SplitHasSecondField(s: string, c: char)
    ensures |Split(s, c)| >= 2 <==> c in s
    decreases |s|
  {
    if |s| > 0 {
      SplitHasSecondField(s[1..], c);
      assert c in s <==> s[0] == c || c in s[1..];
    }
  }

  /** The second field of `s.split(c)` is the text between the first and the
      second occurrence of `c` (or the end of `s`). */
  lemma SecondField(s: string, c: char)
    requires c in s
    ensures |Split(s, c)| >= 2
    ensures StartsWith(s, Split(s, c)[0] + [c] + Split(s, c)[1])
    ensures c !in Split(s, c)[0] && c !in Split(s, c)[1]
    ensures var n := |Split(s, c)[0]| + 1 + |Split(s, c)[1]|;
      n == |s| || s[n] == c
  {
    SplitHasSecondField(s, c);
    SplitJoin(s, c);
    var f := Split(s, c);
    var tail := if |f| == 2 then "" else [c] + Join(f[2..], [c]);
    assert Join(f, [c]) == f[0] + [c] + f[1] + tail by {
      assert Join(f, [c]) == f[0] + [c] + Join(f[1..], [c]);
      assert f[1..][0] == f[1];
      if |f| > 2 {
        assert f[1..][1..] == f[2..];
      }
    }
    assert s == (f[0] + [c] + f[1]) + tail;
  }

  /** ASCII case folding of one character (`str.lower` on ASCII text). */
  function LowerChar(ch: char): char
  {
    if 'A' <= ch <= 'Z' then (ch as int - 'A' as int + 'a' as int) as char else ch
  }

  function Lower(s: string): (r: string)
    ensures |r| == |s|
    decreases |s|
  {
    if |s| == 0 then "" else [LowerChar(s[0])] + Lower(s[1..])
  }

  /** Lower-casing works character by character. */
  lemma {:induction false} LowerPointwise(s: string)
    ensures forall i :: 0 <= i < |s| ==> Lower(s)[i] == LowerChar(s[i])
    decreases |s|
  {
    if |s| > 0 {
      LowerPointwise(s[1..]);
      assert forall i :: 1 <= i < |s| ==> Lower(s)[i] == Lower(s[1..])[i - 1];
    }
  }

  lemma {:induction false} LowerIdempotent(s: string)
    ensures Lower(Lower(s)) == Lower(s)
    decreases |s|
  {
    if |s| > 0 {
      assert Lower(s)[1..] == Lower(s[1..]);
      LowerIdempotent(s[1..]);
    }
  }

  /** The characters for which Python's `str.isspace()` holds. */
  predicate IsSpace(ch: char)
  {
    ch == ' ' || ('\t' <= ch <= '\r') || ('\U{1C}' <= ch <= '\U{1F}')
    || ch == '\U{85}' || ch == '\U{A0}' || ch == '\U{1680}'
    || ('\U{2000}' <= ch <= '\U{200A}') || ch == '\U{2028}' || ch == '\U{2029}'
    || ch == '\U{202F}' || ch == '\U{205F}' || ch == '\U{3000}'
  }

  function TrimStart(s: string): string
    decreases |s|
  {
    if |s| > 0 && IsSpace(s[0]) then TrimStart(s[1..]) else s
  }

  function TrimEnd(s: string): string
    decreases |s|
  {
    if |s| > 0 && IsSpace(s[|s| - 1]) then TrimEnd(s[..|s| - 1]) else s
  }

  /** `s.strip()` with no argument. */
  function Strip(s: string): string
  {
    TrimEnd(TrimStart(s))
  }

  lemma {:induction false} TrimStartEmpty(s: string)
    ensures TrimStart(s) == "" <==> forall i :: 0 <= i < |s| ==> IsSpace(s[i])
    decreases |s|
  {
    if |s| > 0 && IsSpace(s[0]) {
      TrimStartEmpty(s[1..]);
      assert forall i :: 1 <= i < |s| ==> s[i] == s[1..][i - 1];
    }
  }

  lemma {:induction false} TrimEndKeepsLeadingNonSpace(s: string)
    requires |s| > 0 && !IsSpace(s[0])
    ensures TrimEnd(s) != ""
    decreases |s|
  {
    if IsSpace(s[|s| - 1]) {
      TrimEndKeepsLeadingNonSpace(s[..|s| - 1]);
    }
  }

  /** `not s.strip()` holds exactly for text made only of whitespace. */
  lemma StripEmpty(s: string)
    ensures Strip(s) == "" <==> forall i :: 0 <= i < |s| ==> IsSpace(s[i])
  {
    TrimStartEmpty(s);
    var t := TrimStart(s);
    if t != "" {
      TrimStartStopsAtNonSpace(s);
      TrimEndKeepsLeadingNonSpace(t);
    }
  }

  lemma {:induction false} TrimStartStopsAtNonSpace(s: string)
    ensures TrimStart(s) != "" ==> !IsSpace(TrimStart(s)[0])
    decreases |s|
  {
    if |s| > 0 && IsSpace(s[0]) {
      TrimStartStopsAtNonSpace(s[1..]);
    }
  }

  predicate IsDigit(ch: char)
  {
    '0' <= ch <= '9'
  }

  function DigitChar(d: nat): (ch: char)
    requires d < 10
    ensures IsDigit(ch) && ch as int - '0' as int == d
  {
    ('0' as int + d) as char
  }

  /** The number a run of decimal digits denotes, most significant first. */
  function DecimalValue(s: string): nat
    requires forall i :: 0 <= i < |s| ==> IsDigit(s[i])
    decreases |s|
  {
    if |s| == 0 then 0
    else
      assert IsDigit(s[|s| - 1]);
      DecimalValue(s[..|s| - 1]) * 10 + (s[|s| - 1] as int - '0' as int)
  }

  /** `str(n)` for a non-negative int: decimal digits with no leading zero
      (except for `0` itself) that denote `n`. */
  function NatToString(n: nat): (r: string)
    ensures |r| >= 1
    ensures forall i :: 0 <= i < |r| ==> IsDigit(r[i])
    ensures r[0] == '0' ==> r == "0"
    ensures DecimalValue(r) == n
    decreases n
  {
    if n < 10 then [DigitChar(n)]
    else
      var r := NatToString(n / 10) + [DigitChar(n % 10)];
      assert r[..|r| - 1] == NatToString(n / 10);
      r
  }

  /** `str(i)` for an int: a leading minus sign exactly when `i` is negative,
      then the decimal digits of its magnitude. */
  function IntToString(i: int): (r: string)
    ensures |r| >= 1
    ensures r[0] == '-' <==> i < 0
    ensures var digits := if i < 0 then r[1..] else r;
      && |digits| >= 1
      && (forall j :: 0 <= j < |digits| ==> IsDigit(digits[j]))
      && (digits[0] == '0' ==> digits == "0")
      && DecimalValue(digits) == if i < 0 then -i else i
  {
    if i < 0 then
      var r := "-" + NatToString(-i);
      assert r[1..] == NatToString(-i);
      r
    else NatToString(i)
  }

  /** Two digit strings without leading zeros denote the same number only
      when they are the same string. */
  lemma {:induction false} DecimalValueInjective(a: string, b: string)
    requires forall i :: 0 <= i < |a| ==> IsDigit(a[i])
    requires forall i :: 0 <= i < |b| ==> IsDigit(b[i])
    requires |a| >= 1 && (a[0] == '0' ==> a == "0")
    requires |b| >= 1 && (b[0] == '0' ==> b == "0")
    requires DecimalValue(a) == DecimalValue(b)
    ensures a == b
  {
    NatToStringOfDecimal(a);
    NatToStringOfDecimal(b);
  }

  /** A digit string without leading zeros is the decimal form of its value. */
  lemma {:induction false} NatToStringOfDecimal(s: string)
    requires forall i :: 0 <= i < |s| ==> IsDigit(s[i])
    requires |s| >= 1 && (s[0] == '0' ==> s == "0")
    ensures NatToString(DecimalValue(s)) == s
    decreases |s|
  {
    var d := s[|s| - 1] as int - '0' as int;
    if |s| == 1 {
      assert DecimalValue(s) == DecimalValue(s[..0]) * 10 + d;
      assert s[..0] == [];
      assert [DigitChar(d)] == s;
    } else {
      var p := s[..|s| - 1];
      assert p[0] == s[0];
      if DecimalValue(p) == 0 {
        NatToStringOfDecimal(p);
        assert false;
      }
      NatToStringOfDecimal(p);
      var v := DecimalValue(s);
      assert v == DecimalValue(p) * 10 + d;
      assert v / 10 == DecimalValue(p) && v % 10 == d;
      assert s == p + [DigitChar(d)];
    }
  }

  /** `str` on ints is injective: different numbers print differently. */
  lemma IntToStringInjective(a: int, b: int)
    requires IntToString(a) == IntToString(b)
    ensures a == b
  {
    var r := IntToString(a);
    if a < 0 {
      DecimalValueInjective(r[1..], IntToString(b)[1..]);
    } else {
      DecimalValueInjective(r, IntToString(b));
    }
  }
}
