/** The text operations the handlers build their statements from: joining, filtering and
    rendering column lists, Java's decimal rendering of `int` (and a parser that inverts it),
    and the Java `String` methods the source calls (`trim`, `toLowerCase`, `contains`,
    `endsWith`, `split`, `replace`). */
module Text {
  import opened Common

  // ---------------------------------------------------------------------------------------
  // Joining and selecting

  /** `String.join(sep, items)`: the items separated by `sep`, no separator at either end. */
  function Join(items: seq<string>, sep: string): string
  {
    if |items| == 0 then ""
    else if |items| == 1 then items[0]
    else Join(items[..|items| - 1], sep) + sep + items[|items| - 1]
  }

  /** Appending one item to a joined list adds one separator, unless the list was empty. */
  lemma JoinSnoc(items: seq<string>, last: string, sep: string)
    ensures Join(items + [last], sep) == if |items| == 0 then last else Join(items, sep) + sep + last
  {
    assert (items + [last])[..|items|] == items;
  }

  /** The items that pass `keep`, each rendered by `render`, in their original order. */
  function Select<T>(items: seq<T>, keep: T -> bool, render: T -> string): (r: seq<string>)
    ensures |r| <= |items|
  {
    if |items| == 0 then []
    else
      Select(items[..|items| - 1], keep, render)
      + (if keep(items[|items| - 1]) then [render(items[|items| - 1])] else [])
  }

  /** The items that pass `keep`, unrendered, in order. */
  function Filter<T>(items: seq<T>, keep: T -> bool): (r: seq<T>)
    ensures |r| <= |items|
  {
    if |items| == 0 then []
    else Filter(items[..|items| - 1], keep) + (if keep(items[|items| - 1]) then [items[|items| - 1]] else [])
  }

  /** Every item rendered, in order. */
  function MapSeq<T>(items: seq<T>, render: T -> string): (r: seq<string>)
    ensures |r| == |items|
    ensures forall k :: 0 <= k < |items| ==> r[k] == render(items[k])
  {
    seq(|items|, k requires 0 <= k < |items| => render(items[k]))
  }

  lemma {:induction false} SelectIsMapOfFilter<T>(items: seq<T>, keep: T -> bool, render: T -> string)
    ensures Select(items, keep, render) == MapSeq(Filter(items, keep), render)
  {
    if |items| > 0 {
      SelectIsMapOfFilter(items[..|items| - 1], keep, render);
    }
  }

  lemma {:induction false} FilterAppend<T>(a: seq<T>, b: seq<T>, keep: T -> bool)
    ensures Filter(a + b, keep) == Filter(a, keep) + Filter(b, keep)
    decreases |b|
  {
    if |b| > 0 {
      assert (a + b)[..|a + b| - 1] == a + b[..|b| - 1];
      FilterAppend(a, b[..|b| - 1], keep);
    } else {
      assert a + b == a;
    }
  }

  /** Membership in a filtered sequence: exactly the kept items. */
  lemma {:induction false} FilterMembership<T>(items: seq<T>, keep: T -> bool, x: T)
    ensures x in Filter(items, keep) <==> x in items && keep(x)
  {
    if |items| > 0 {
      FilterMembership(items[..|items| - 1], keep, x);
      assert items == items[..|items| - 1] + [items[|items| - 1]];
    }
  }

  /** Keeping every item keeps the sequence. */
  lemma {:induction false} FilterAll<T>(names: seq<T>)
    ensures Filter(names, c => true) == names
  {
    if |names| > 0 {
      FilterAll(names[..|names| - 1]);
      assert names == names[..|names| - 1] + [names[|names| - 1]];
    }
  }

  /** Two tests that agree on every item keep the same items. */
  lemma {:induction false} FilterSame<T>(items: seq<T>, keep: T -> bool, other: T -> bool)
    requires forall k :: 0 <= k < |items| ==> keep(items[k]) == other(items[k])
    ensures Filter(items, keep) == Filter(items, other)
  {
    if |items| > 0 {
      FilterSame(items[..|items| - 1], keep, other);
    }
  }

  /** `n` copies of `s`. */
  function Repeat(s: string, n: nat): (r: seq<string>)
    ensures |r| == n
    ensures forall k :: 0 <= k < n ==> r[k] == s
  {
    seq(n, _ => s)
  }

  // ---------------------------------------------------------------------------------------
  // Counting a character (used to count `?` placeholders)

  function CountChar(s: string, c: char): nat
  {
    if |s| == 0 then 0 else CountChar(s[..|s| - 1], c) + (if s[|s| - 1] == c then 1 else 0)
  }

  lemma {:induction false} CountCharAppend(a: string, b: string, c: char)
    ensures CountChar(a + b, c) == CountChar(a, c) + CountChar(b, c)
    decreases |b|
  {
    if |b| > 0 {
      assert (a + b)[..|a + b| - 1] == a + b[..|b| - 1];
      CountCharAppend(a, b[..|b| - 1], c);
    } else {
      assert a + b == a;
    }
  }

  /** The occurrences of `c` in all the items together. */
  function CountInAll(items: seq<string>, c: char): nat
  {
    if |items| == 0 then 0 else CountInAll(items[..|items| - 1], c) + CountChar(items[|items| - 1], c)
  }

  /** A joined list holds the occurrences of its items plus one separator's worth per gap. */
  lemma {:induction false} CountCharJoin(items: seq<string>, sep: string, c: char)
    ensures CountChar(Join(items, sep), c)
         == CountInAll(items, c) + (if |items| == 0 then 0 else (|items| - 1) * CountChar(sep, c))
  {
    if |items| == 1 {
      assert items[..0] == [];
    } else if |items| > 1 {
      var init := items[..|items| - 1];
      CountCharJoin(init, sep, c);
      CountCharAppend(Join(init, sep), sep, c);
      CountCharAppend(Join(init, sep) + sep, items[|items| - 1], c);
    }
  }

  lemma {:induction false} CountInAllRepeat(s: string, n: nat, c: char)
    ensures CountInAll(Repeat(s, n), c) == n * CountChar(s, c)
  {
    if n > 0 {
      assert Repeat(s, n)[..n - 1] == Repeat(s, n - 1);
      CountInAllRepeat(s, n - 1, c);
    }
  }

  /** `n` placeholders `p` (each holding one `?`) joined by a separator without `?` hold `n` of them. */
  lemma PlaceholderCount(p: string, sep: string, n: nat)
    requires CountChar(p, '?') == 1 && CountChar(sep, '?') == 0
    ensures CountChar(Join(Repeat(p, n), sep), '?') == n
  {
    CountCharJoin(Repeat(p, n), sep, '?');
    CountInAllRepeat(p, n, '?');
  }

  /** Text without `c` has no occurrence of it. */
  lemma {:induction false} CountAbsent(s: string, c: char)
    requires c !in s
    ensures CountChar(s, c) == 0
  {
    if |s| > 0 {
      assert c !in s[..|s| - 1];
      CountAbsent(s[..|s| - 1], c);
    }
  }

  /** Items holding one `c` each, joined by a separator without `c`, hold one `c` per item. */
  lemma {:induction false} CountInAllOnes(items: seq<string>, c: char)
    requires forall k :: 0 <= k < |items| ==> CountChar(items[k], c) == 1
    ensures CountInAll(items, c) == |items|
  {
    if |items| > 0 {
      CountInAllOnes(items[..|items| - 1], c);
    }
  }

  lemma JoinOnesCount(items: seq<string>, sep: string, c: char)
    requires forall k :: 0 <= k < |items| ==> CountChar(items[k], c) == 1
    requires c !in sep
    ensures CountChar(Join(items, sep), c) == |items|
  {
    CountCharJoin(items, sep, c);
    CountInAllOnes(items, c);
    CountAbsent(sep, c);
  }

  // ---------------------------------------------------------------------------------------
  // Decimal rendering of integers (Java's `"" + n` on an int) and its inverse

  predicate IsDigit(c: char) {
    '0' <= c <= '9'
  }

  function DigitChar(d: nat): (c: char)
    requires d < 10
    ensures IsDigit(c) && c as int - '0' as int == d
  {
    (d + '0' as int) as char
  }

  /** The decimal digits of `n`, most significant first, without leading zeros. */
  function NatToString(n: nat): (s: string)
    ensures |s| > 0
    ensures forall i :: 0 <= i < |s| ==> IsDigit(s[i])
  {
    if n < 10 then [DigitChar(n)] else NatToString(n / 10) + [DigitChar(n % 10)]
  }

  /** Java's decimal rendering of an integer: a leading `-` for negative values. */
  function IntToString(n: int): (s: string)
    ensures |s| > 0
  {
    if n < 0 then "-" + NatToString(-n) else NatToString(n)
  }

  /** The value of a string of decimal digits. */
  function DigitsValue(s: string): nat
    requires forall i :: 0 <= i < |s| ==> IsDigit(s[i])
  {
    if |s| == 0 then 0
    else
      assert IsDigit(s[|s| - 1]);
      DigitsValue(s[..|s| - 1]) * 10 + (s[|s| - 1] as int - '0' as int)
  }

  /** Length of the longest prefix of `s` made of digits. */
  function DigitRun(s: string): (k: nat)
    ensures k <= |s|
    ensures forall i :: 0 <= i < k ==> IsDigit(s[i])
    ensures k < |s| ==> !IsDigit(s[k])
  {
    if |s| == 0 || !IsDigit(s[0]) then 0 else 1 + DigitRun(s[1..])
  }

  /** Reads a non-empty run of digits at the front of `s`; returns its value and what follows. */
  function ParseNat(s: string): Option<(nat, string)>
  {
    var k := DigitRun(s);
    if k == 0 then None else Some((DigitsValue(s[..k]), s[k..]))
  }

  /** Reads an optionally negative decimal integer at the front of `s`. */
  function ParseInt(s: string): Option<(int, string)>
  {
    if |s| > 0 && s[0] == '-' then
      match ParseNat(s[1..])
      case None => None
      case Some((n, rest)) => Some((0 - n, rest))
    else
      match ParseNat(s)
      case None => None
      case Some((n, rest)) => Some((n, rest))
  }

  /** Text that cannot continue a number: empty, or starting with a non-digit. */
  predicate EndsNumber(rest: string) {
    |rest| == 0 || !IsDigit(rest[0])
  }

  lemma {:induction false} DigitsValueOfNatToString(n: nat)
    ensures DigitsValue(NatToString(n)) == n
  {
    if n >= 10 {
      var s := NatToString(n / 10) + [DigitChar(n % 10)];
      assert s[..|s| - 1] == NatToString(n / 10);
      DigitsValueOfNatToString(n / 10);
    }
  }

  lemma {:induction false} DigitRunOfDigits(s: string, rest: string)
    requires forall i :: 0 <= i < |s| ==> IsDigit(s[i])
    requires EndsNumber(rest)
    ensures DigitRun(s + rest) == |s|
  {
    if |s| > 0 {
      assert (s + rest)[1..] == s[1..] + rest;
      DigitRunOfDigits(s[1..], rest);
    } else {
      assert s + rest == rest;
    }
  }

  lemma ParseNatOfNatToString(n: nat, rest: string)
    requires EndsNumber(rest)
    ensures ParseNat(NatToString(n) + rest) == Some((n, rest))
  {
    var s := NatToString(n);
    DigitRunOfDigits(s, rest);
    assert (s + rest)[..|s|] == s;
    assert (s + rest)[|s|..] == rest;
    DigitsValueOfNatToString(n);
  }

  /** Rendering then parsing an integer gives it back, with the text after it untouched. */
  lemma ParseIntOfIntToString(n: int, rest: string)
    requires EndsNumber(rest)
    ensures ParseInt(IntToString(n) + rest) == Some((n, rest))
  {
    if n < 0 {
      var t := IntToString(n) + rest;
      assert t[1..] == NatToString(-n) + rest;
      ParseNatOfNatToString(-n, rest);
    } else {
      ParseNatOfNatToString(n, rest);
    }
  }

  /** What follows `lit` at the front of `s`, if `s` starts with it. */
  function After(s: string, lit: string): (r: Option<string>)
    ensures r.Some? <==> lit <= s
    ensures r.Some? ==> s == lit + r.value
  {
    if lit <= s then Some(s[|lit|..]) else None
  }

  /** Reads `lit` and then a decimal integer at the front of `s`. */
  function LitThenInt(s: string, lit: string): Option<(int, string)>
  {
    match After(s, lit)
    case None => None
    case Some(t) => ParseInt(t)
  }

  /** A literal followed by a rendered integer reads back as that integer. */
  lemma LitThenIntOf(lit: string, n: int, rest: string)
    requires EndsNumber(rest)
    ensures LitThenInt(lit + IntToString(n) + rest, lit) == Some((n, rest))
  {
    assert (lit + IntToString(n) + rest)[|lit|..] == IntToString(n) + rest;
    ParseIntOfIntToString(n, rest);
  }

  /** Two integers render to the same text only if they are equal. */
  lemma IntToStringInjective(a: int, b: int)
    requires IntToString(a) == IntToString(b)
    ensures a == b
  {
    ParseIntOfIntToString(a, "");
    ParseIntOfIntToString(b, "");
    assert IntToString(a) + "" == IntToString(a);
    assert IntToString(b) + "" == IntToString(b);
  }

  // ---------------------------------------------------------------------------------------
  // Java String methods

  /** `s.contains(sub)`. */
  predicate Contains(s: string, sub: string)
    decreases |s|
  {
    sub <= s || (|s| > 0 && Contains(s[1..], sub))
  }

  lemma {:induction false} ContainsAt(s: string, sub: string, i: nat)
    requires i + |sub| <= |s| && s[i..i + |sub|] == sub
    ensures Contains(s, sub)
    decreases i
  {
    if i > 0 {
      assert s[1..][i - 1..i - 1 + |sub|] == s[i..i + |sub|];
      ContainsAt(s[1..], sub, i - 1);
    }
  }

  /** `s.endsWith(suffix)`. */
  predicate EndsWith(s: string, suffix: string) {
    |suffix| <= |s| && s[|s| - |suffix|..] == suffix
  }

  /** Java's `trim`: drops every leading and trailing character at or below U+0020. */
  function Trim(s: string): (r: string)
    ensures |r| <= |s|
    ensures |r| > 0 ==> r[0] > ' ' && r[|r| - 1] > ' '
  {
    TrimEnd(TrimStart(s))
  }

  function TrimStart(s: string): (r: string)
    ensures |r| <= |s|
    ensures |r| > 0 ==> r[0] > ' '
    ensures r == s[|s| - |r|..]
  {
    if |s| > 0 && s[0] <= ' ' then TrimStart(s[1..]) else s
  }

  function TrimEnd(s: string): (r: string)
    ensures |r| <= |s|
    ensures |r| > 0 ==> r[|r| - 1] > ' '
    ensures r == s[..|r|]
    ensures |r| > 0 && |s| > 0 && s[0] > ' ' ==> r[0] == s[0]
    ensures |s| > 0 && s[0] > ' ' ==> |r| > 0
  {
    if |s| > 0 && s[|s| - 1] <= ' ' then TrimEnd(s[..|s| - 1]) else s
  }

  /** `toLowerCase` on the ASCII letters (the only letters in the names the handlers compare). */
  function ToLower(s: string): (r: string)
    ensures |r| == |s|
  {
    seq(|s|, i requires 0 <= i < |s| => if 'A' <= s[i] <= 'Z' then (s[i] as int + 32) as char else s[i])
  }

  /** Lower-casing twice is lower-casing once. */
  lemma ToLowerIdempotent(s: string)
    ensures ToLower(ToLower(s)) == ToLower(s)
  {
  }

  /** The pieces of `s` between occurrences of `d`, empty pieces included. */
  function Segments(s: string, d: char): (r: seq<string>)
    ensures |r| >= 1
    ensures forall k :: 0 <= k < |r| ==> d !in r[k]
    decreases |s|
  {
    if d !in s then [s]
    else
      var i := IndexOf(s, d);
      [s[..i]] + Segments(s[i + 1..], d)
  }

  /** Position of the first `d` in `s`. */
  function IndexOf(s: string, d: char): (i: nat)
    requires d in s
    ensures i < |s| && s[i] == d && d !in s[..i]
  {
    if s[0] == d then 0 else 1 + IndexOf(s[1..], d)
  }

  /** Splitting and re-joining on the same character gives back the original text. */
  lemma {:induction false} JoinSegments(s: string, d: char)
    ensures Join(Segments(s, d), [d]) == s
    decreases |s|
  {
    if d in s {
      var i := IndexOf(s, d);
      var rest := Segments(s[i + 1..], d);
      JoinSegments(s[i + 1..], d);
      JoinCons(s[..i], rest, [d]);
      assert s == s[..i] + [d] + s[i + 1..];
    }
  }

  lemma {:induction false} JoinCons(x: string, items: seq<string>, sep: string)
    requires |items| >= 1
    ensures Join([x] + items, sep) == x + sep + Join(items, sep)
    decreases |items|
  {
    var all := [x] + items;
    if |items| == 1 {
      assert all[..1] == [x];
    } else {
      assert all[..|all| - 1] == [x] + items[..|items| - 1];
      JoinCons(x, items[..|items| - 1], sep);
    }
  }

  /** Java's split drops the empty strings at the end of the result. */
  function DropTrailingEmpty(parts: seq<string>): (r: seq<string>)
    ensures |r| <= |parts| && r == parts[..|r|]
    ensures |r| > 0 ==> r[|r| - 1] != ""
    ensures forall k :: |r| <= k < |parts| ==> parts[k] == ""
  {
    if |parts| > 0 && parts[|parts| - 1] == "" then DropTrailingEmpty(parts[..|parts| - 1]) else parts
  }

  /** `s.split(regex)` for a regex matching the single character `d`: no match gives `[s]`;
      otherwise the pieces between occurrences, with trailing empty pieces removed. */
  function JavaSplit(s: string, d: char): seq<string>
  {
    if d !in s then [s] else DropTrailingEmpty(Segments(s, d))
  }

  /** `s.replace(target, replacement)`: every non-overlapping occurrence, scanned from the left. */
  function ReplaceAll(s: string, target: string, replacement: string): string
    requires |target| > 0
    decreases |s|
  {
    if |s| < |target| then s
    else if target <= s then replacement + ReplaceAll(s[|target|..], target, replacement)
    else [s[0]] + ReplaceAll(s[1..], target, replacement)
  }

  /** Replacing a text by itself changes nothing. */
  lemma {:induction false} ReplaceBySelf(s: string, target: string)
    requires |target| > 0
    ensures ReplaceAll(s, target, target) == s
    decreases |s|
  {
    if |s| >= |target| {
      if target <= s {
        ReplaceBySelf(s[|target|..], target);
        assert s == target + s[|target|..];
      } else {
        ReplaceBySelf(s[1..], target);
        assert s == [s[0]] + s[1..];
      }
    }
  }

  /** Text without the target is left as it is. */
  lemma {:induction false} ReplaceAbsent(s: string, target: string, replacement: string)
    requires |target| > 0 && !Contains(s, target)
    ensures ReplaceAll(s, target, replacement) == s
    decreases |s|
  {
    if |s| >= |target| {
      assert !(target <= s);
      ReplaceAbsent(s[1..], target, replacement);
      assert s == [s[0]] + s[1..];
    }
  }
}
