/**
 * The few operations of Python's `str` type that the splitter uses, on
 * `string` (a `seq<char>`), each with the properties the splitter relies on.
 */
module PyStr {

  /** `s.startswith(prefix)` */
  predicate StartsWith(s: string, prefix: string) {
    |prefix| <= |s| && s[..|prefix|] == prefix
  }

  /** `s.endswith(suffix)` */
  predicate EndsWith(s: string, suffix: string) {
    |suffix| <= |s| && s[|s| - |suffix|..] == suffix
  }

  /** `sub` occurs in `s` starting at index `i`. */
  predicate OccursAt(s: string, sub: string, i: int) {
    0 <= i && i + |sub| <= |s| && s[i..i + |sub|] == sub
  }

  /** `sub in s`, scanning from the left. */
  predicate Contains(s: string, sub: string)
    decreases |s|
  {
    StartsWith(s, sub) || (|s| > 0 && Contains(s[1..], sub))
  }

  /** The left-to-right scan finds `sub` exactly when it occurs at some index. */
  lemma {:induction false} ContainsIffOccurs(s: string, sub: string)
    ensures Contains(s, sub) <==> exists i :: OccursAt(s, sub, i)
    decreases |s|
  {
    if StartsWith(s, sub) {
      assert OccursAt(s, sub, 0);
    } else if |s| > 0 {
      ContainsIffOccurs(s[1..], sub);
      if Contains(s[1..], sub) {
        var i :| OccursAt(s[1..], sub, i);
        assert s[1..][i..i + |sub|] == s[i + 1..i + 1 + |sub|];
        assert OccursAt(s, sub, i + 1);
      }
      if i :| OccursAt(s, sub, i) {
        assert i != 0;
        assert s[1..][i - 1..i - 1 + |sub|] == s[i..i + |sub|];
        assert OccursAt(s[1..], sub, i - 1);
      }
    }
  }

  /** `s.lstrip(c)`: every leading `c` is removed, however many there are. */
  function LStrip(s: string, c: char): (r: string)
    ensures |r| <= |s|
    decreases |s|
  {
    if |s| > 0 && s[0] == c then LStrip(s[1..], c) else s
  }

  /** What `lstrip` leaves is a suffix not led by `c`, and all it removed was `c`. */
  lemma {:induction false} LStripSpec(s: string, c: char)
    ensures LStrip(s, c) == s[|s| - |LStrip(s, c)|..]
    ensures forall i :: 0 <= i < |s| - |LStrip(s, c)| ==> s[i] == c
    ensures |LStrip(s, c)| > 0 ==> LStrip(s, c)[0] != c
    decreases |s|
  {
    if |s| > 0 && s[0] == c {
      LStripSpec(s[1..], c);
    }
  }

  /** `s.rstrip(c)`: every trailing `c` is removed. */
  function RStrip(s: string, c: char): (r: string)
    ensures |r| <= |s|
    decreases |s|
  {
    if |s| > 0 && s[|s| - 1] == c then RStrip(s[..|s| - 1], c) else s
  }

  /** What `rstrip` leaves is a prefix not ended by `c`, and all it removed was `c`. */
  lemma {:induction false} RStripSpec(s: string, c: char)
    ensures RStrip(s, c) == s[..|RStrip(s, c)|]
    ensures forall i :: |RStrip(s, c)| <= i < |s| ==> s[i] == c
    ensures |RStrip(s, c)| > 0 ==> RStrip(s, c)[|RStrip(s, c)| - 1] != c
    decreases |s|
  {
    if |s| > 0 && s[|s| - 1] == c {
      RStripSpec(s[..|s| - 1], c);
    }
  }

  /** `s.strip(c)`: leading and trailing `c` are removed, nothing in between. */
  function Strip(s: string, c: char): (r: string)
    ensures |r| <= |s|
  {
    RStrip(LStrip(s, c), c)
  }

  /**
   * `strip` leaves neither end equal to `c`, and leaves a string whose ends
   * are not `c` as it is.
   */
  lemma StripSpec(s: string, c: char)
    ensures |Strip(s, c)| > 0 ==> Strip(s, c)[0] != c && Strip(s, c)[|Strip(s, c)| - 1] != c
    ensures (|s| == 0 || (s[0] != c && s[|s| - 1] != c)) ==> Strip(s, c) == s
  {
    var left := LStrip(s, c);
    LStripSpec(s, c);
    RStripSpec(left, c);
    if |s| > 0 && s[0] != c {
      assert left == s;
    }
    if |Strip(s, c)| > 0 {
      assert Strip(s, c)[0] == left[0];
    }
  }

  /**
   * `s.replace(pat, rep)` for a non-empty `pat`: matches are found from the
   * left and do not overlap; the text after a match is scanned afresh.
   */
  function Replace(s: string, pat: string, rep: string): (r: string)
    requires |pat| > 0
    ensures |rep| <= |pat| ==> |r| <= |s|
    ensures |rep| == |pat| ==> |r| == |s|
    ensures |rep| < |pat| && StartsWith(s, pat) ==> |r| < |s|
    decreases |s|
  {
    if |s| == 0 then ""
    else if StartsWith(s, pat) then rep + Replace(s[|pat|..], pat, rep)
    else [s[0]] + Replace(s[1..], pat, rep)
  }

  /** Without an occurrence of `pat`, `replace` returns the string unchanged. */
  lemma {:induction false} ReplaceWithoutMatch(s: string, pat: string, rep: string)
    requires |pat| > 0 && !Contains(s, pat)
    ensures Replace(s, pat, rep) == s
    decreases |s|
  {
    if |s| > 0 {
      ReplaceWithoutMatch(s[1..], pat, rep);
      assert [s[0]] + s[1..] == s;
    }
  }

  /** Replacing one character by another acts position by position. */
  lemma {:induction false} ReplaceCharAt(s: string, a: char, b: char)
    ensures |Replace(s, [a], [b])| == |s|
    ensures forall i :: 0 <= i < |s| ==> Replace(s, [a], [b])[i] == if s[i] == a then b else s[i]
    decreases |s|
  {
    if |s| > 0 {
      ReplaceCharAt(s[1..], a, b);
      var tail := Replace(s[1..], [a], [b]);
      assert Replace(s, [a], [b]) == [if s[0] == a then b else s[0]] + tail;
      forall i | 0 < i < |s|
        ensures Replace(s, [a], [b])[i] == if s[i] == a then b else s[i]
      {
        assert s[i] == s[1..][i - 1];
      }
    }
  }

  /** Replacing a character by a different character leaves none of it behind. */
  lemma ReplaceCharRemoves(s: string, a: char, b: char)
    requires a != b
    ensures a !in Replace(s, [a], [b])
  {
    ReplaceCharAt(s, a, b);
  }

  /**
   * Deleting a character (`s.replace(a, '')`) removes exactly its occurrences
   * and keeps every other character.
   */
  lemma {:induction false} ReplaceDeletes(s: string, a: char)
    ensures a !in Replace(s, [a], "")
    ensures |Replace(s, [a], "")| == |s| - multiset(s)[a]
    ensures forall x :: x != a ==> multiset(Replace(s, [a], ""))[x] == multiset(s)[x]
    decreases |s|
  {
    if |s| > 0 {
      ReplaceDeletes(s[1..], a);
      assert s == [s[0]] + s[1..];
      assert multiset(s) == multiset{s[0]} + multiset(s[1..]);
      if s[0] != a {
        var r := Replace(s, [a], "");
        assert r == [s[0]] + Replace(s[1..], [a], "");
        assert multiset(r) == multiset{s[0]} + multiset(Replace(s[1..], [a], ""));
      }
    }
  }

  /** One step of `s.replace(a, rep)`: the first character, then the rest. */
  lemma ReplaceCharHead(s: string, a: char, rep: string)
    requires |s| > 0
    ensures Replace(s, [a], rep) == (if s[0] == a then rep else [s[0]]) + Replace(s[1..], [a], rep)
  {
    assert s[..1] == [s[0]];
  }

  /** The step of `ReplaceCharHead` taken on a concatenation with a non-empty first piece. */
  lemma ReplaceCharHeadConcat(p: string, t: string, a: char, rep: string)
    requires |p| > 0
    ensures Replace(p + t, [a], rep) == (if p[0] == a then rep else [p[0]]) + Replace(p[1..] + t, [a], rep)
  {
    ReplaceCharHead(p + t, a, rep);
    assert (p + t)[1..] == p[1..] + t;
    assert (p + t)[0] == p[0];
  }

  /** Concatenation is associative. */
  lemma AppendAssoc(x: string, y: string, z: string)
    ensures x + (y + z) == (x + y) + z
  {
  }

  /** On a single character, `replace(a, rep)` gives `rep` or the character itself. */
  lemma ReplaceCharSingle(c: char, a: char, rep: string)
    ensures Replace([c], [a], rep) == if c == a then rep else [c]
  {
    ReplaceCharHead([c], a, rep);
    assert [c][1..] == "";
  }

  /**
   * Replacing one character acts on each piece of a concatenation on its own.
   * With ReplaceCharSingle this pins `s.replace(a, rep)` for any `rep`, the
   * order of the kept characters included.
   */
  lemma {:induction false} ReplaceCharConcat(p: string, t: string, a: char, rep: string)
    ensures Replace(p + t, [a], rep) == Replace(p, [a], rep) + Replace(t, [a], rep)
    decreases |p|
  {
    if |p| == 0 {
      assert p + t == t;
    } else {
      var head := if p[0] == a then rep else [p[0]];
      ReplaceCharHeadConcat(p, t, a, rep);
      ReplaceCharHead(p, a, rep);
      ReplaceCharConcat(p[1..], t, a, rep);
      AppendAssoc(head, Replace(p[1..], [a], rep), Replace(t, [a], rep));
    }
  }

  /** A prefix free of the pattern's first character is copied through by `replace`. */
  lemma {:induction false} ReplaceSkipsPrefix(p: string, t: string, pat: string, rep: string)
    requires |pat| > 0 && pat[0] !in p
    ensures Replace(p + t, pat, rep) == p + Replace(t, pat, rep)
    decreases |p|
  {
    if |p| > 0 {
      ReplaceSkipsPrefix(p[1..], t, pat, rep);
      assert (p + t)[1..] == p[1..] + t;
      assert (p + t)[0] == p[0] && p[0] != pat[0];
      assert !StartsWith(p + t, pat);
      assert p == [p[0]] + p[1..];
    } else {
      assert p + t == t;
    }
  }

  /** `s.split(sep)` for a one-character separator: never empty, pieces free of `sep`. */
  function Split(s: string, sep: char): (parts: seq<string>)
    ensures |parts| >= 1
    ensures forall k :: 0 <= k < |parts| ==> sep !in parts[k]
    ensures forall k, x :: 0 <= k < |parts| && x in parts[k] ==> x in s
    decreases |s|
  {
    if |s| == 0 then [""]
    else
      var rest := Split(s[1..], sep);
      assert forall x :: x in s[1..] ==> x in s;
      if s[0] == sep then [""] + rest
      else [[s[0]] + rest[0]] + rest[1..]
  }

  /** Splitting keeps a separator-free prefix at the head of the first piece. */
  lemma {:induction false} SplitSkipsPrefix(p: string, t: string, sep: char)
    requires sep !in p
    ensures StartsWith(Split(p + t, sep)[0], p)
    decreases |p|
  {
    if |p| > 0 {
      SplitSkipsPrefix(p[1..], t, sep);
      assert (p + t)[1..] == p[1..] + t;
      assert (p + t)[0] == p[0];
      var rest := Split(p[1..] + t, sep);
      assert Split(p + t, sep)[0] == [p[0]] + rest[0];
    } else {
      assert p + t == t;
    }
  }

  /** `sep.join(parts)` */
  function Join(parts: seq<string>, sep: string): string
  {
    if |parts| == 0 then ""
    else if |parts| == 1 then parts[0]
    else parts[0] + sep + Join(parts[1..], sep)
  }

  /** Joining the pieces of a split with its separator gives back the string. */
  lemma {:induction false} JoinSplit(s: string, sep: char)
    ensures Join(Split(s, sep), [sep]) == s
    decreases |s|
  {
    if |s| > 0 {
      JoinSplit(s[1..], sep);
      var rest := Split(s[1..], sep);
      assert forall x :: x in s[1..] ==> x in s;
      if s[0] == sep {
        assert Split(s, sep) == [""] + rest;
        assert ([""] + rest)[1..] == rest;
      } else {
        var parts := Split(s, sep);
        assert parts == [[s[0]] + rest[0]] + rest[1..];
        if |rest| > 1 {
          assert parts[1..] == rest[1..];
          assert Join(rest, [sep]) == rest[0] + [sep] + Join(rest[1..], [sep]);
        }
      }
    }
  }

  /** A character found neither in the pieces nor in the separator is not in the join. */
  lemma {:induction false} JoinAvoids(parts: seq<string>, sep: string, x: char)
    requires x !in sep
    requires forall k :: 0 <= k < |parts| ==> x !in parts[k]
    ensures x !in Join(parts, sep)
    decreases |parts|
  {
    if |parts| > 1 {
      JoinAvoids(parts[1..], sep, x);
    }
  }

  /** The first piece of the join is the first piece given. */
  lemma {:induction false} JoinStartsWithFirst(parts: seq<string>, sep: string)
    requires |parts| >= 1
    ensures StartsWith(Join(parts, sep), parts[0])
  {
    if |parts| > 1 {
      assert Join(parts, sep) == parts[0] + (sep + Join(parts[1..], sep));
    }
  }

  predicate IsDigit(c: char) {
    '0' <= c <= '9'
  }

  function DigitChar(d: nat): (c: char)
    requires d < 10
    ensures IsDigit(c) && c as int - '0' as int == d
  {
    ('0' as int + d) as char
  }

  /** `str(n)` for a natural number: its decimal digits, most significant first. */
  function NatToString(n: nat): (r: string)
    ensures |r| >= 1
    ensures forall i :: 0 <= i < |r| ==> IsDigit(r[i])
    ensures n >= 10 ==> r[0] != '0'
  {
    if n < 10 then [DigitChar(n)] else NatToString(n / 10) + [DigitChar(n % 10)]
  }

  /** The number a string of decimal digits stands for. */
  function DigitsValue(s: string): nat
    requires forall i :: 0 <= i < |s| ==> IsDigit(s[i])
  {
    if |s| == 0 then 0
    else
      assert IsDigit(s[|s| - 1]);
      DigitsValue(s[..|s| - 1]) * 10 + (s[|s| - 1] as int - '0' as int)
  }

  /** Reading back the decimal digits of `n` gives `n`. */
  lemma {:induction false} NatToStringRoundTrip(n: nat)
    ensures DigitsValue(NatToString(n)) == n
  {
    if n >= 10 {
      NatToStringRoundTrip(n / 10);
      var r := NatToString(n);
      assert r[..|r| - 1] == NatToString(n / 10);
    }
  }

  /** Different numbers have different decimal forms. */
  lemma NatToStringInjective(m: nat, n: nat)
    requires NatToString(m) == NatToString(n)
    ensures m == n
  {
    NatToStringRoundTrip(m);
    NatToStringRoundTrip(n);
  }
}
