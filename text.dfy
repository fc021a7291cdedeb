/** The JavaScript string operations the components rely on, over `seq<char>`:
    `trim`, `split` on one character, `join`, `replace` of the first
    occurrence of a character, `startsWith`, the "capitalise first letter"
    idiom and decimal rendering of a count. Whitespace and upper case are
    restricted to ASCII. */
module Text {
  import Seqs

  /** The ASCII characters `String.prototype.trim` removes. */
  predicate IsSpace(c: char)
  {
    c == ' ' || c == '\t' || c == '\n' || c == '\U{000B}' || c == '\U{000C}' || c == '\r'
  }

  /** Neither starts nor ends with whitespace. */
  predicate Trimmed(s: string)
  {
    |s| == 0 || (!IsSpace(s[0]) && !IsSpace(s[|s| - 1]))
  }

  /** Contains only whitespace (or nothing). */
  predicate Blank(s: string)
  {
    forall i :: 0 <= i < |s| ==> IsSpace(s[i])
  }

  /** `trimStart`: the suffix left after dropping the leading whitespace. */
  function TrimStart(s: string): (r: string)
    ensures |r| <= |s| && r == s[|s| - |r|..]
    ensures |r| == 0 || !IsSpace(r[0])
    ensures Blank(s[..|s| - |r|])
  {
    if |s| > 0 && IsSpace(s[0]) then TrimStart(s[1..]) else s
  }

  /** `trimEnd`: the prefix left after dropping the trailing whitespace. */
  function TrimEnd(s: string): (r: string)
    ensures |r| <= |s| && r == s[..|r|]
    ensures |r| == 0 || !IsSpace(r[|r| - 1])
    ensures Blank(s[|r|..])
  {
    if |s| > 0 && IsSpace(s[|s| - 1]) then TrimEnd(s[..|s| - 1]) else s
  }

  /** `trim`: the contiguous middle of `s` without whitespace around it. */
  function Trim(s: string): (r: string)
    ensures Trimmed(r)
    ensures forall i :: 0 <= i < |r| ==> r[i] in s
  {
    var t := TrimStart(s);
    var r := TrimEnd(t);
    InnerChars(s, t, r);
    r
  }

  /** A prefix of a suffix of `s` holds only characters of `s`. */
  lemma InnerChars(s: string, t: string, r: string)
    requires |t| <= |s| && t == s[|s| - |t|..]
    requires |r| <= |t| && r == t[..|r|]
    ensures forall i :: 0 <= i < |r| ==> r[i] in s
  {
    forall i | 0 <= i < |r| ensures r[i] in s {
      assert r[i] == t[i] == s[|s| - |t| + i];
    }
  }

  /** What `trim` removes is whitespace at the two ends and nothing else. */
  lemma TrimSlice(s: string) returns (a: nat)
    ensures a + |Trim(s)| <= |s| && Trim(s) == s[a..a + |Trim(s)|]
    ensures Blank(s[..a]) && Blank(s[a + |Trim(s)|..])
  {
    var t := TrimStart(s);
    var r := TrimEnd(t);
    a := |s| - |t|;
    assert r == s[a..a + |r|];
    assert s[a + |r|..] == t[|r|..];
  }

  /** Trimming changes a string exactly when it has whitespace at an end. */
  lemma TrimFixpoint(s: string)
    ensures Trim(s) == s <==> Trimmed(s)
  {
    if Trimmed(s) {
      assert TrimStart(s) == s;
    }
  }

  lemma TrimOfTrimmed(s: string)
    requires Trimmed(s)
    ensures Trim(s) == s
  {
    TrimFixpoint(s);
  }

  /** A trimmed string is empty exactly when the original is all whitespace. */
  lemma TrimBlank(s: string)
    ensures Trim(s) == "" <==> Blank(s)
  {
    var t := TrimStart(s);
    var a := |s| - |t|;
    BlankTrimStart(s);
    assert s == s[..a] + t;
    assert TrimEnd(t) == "" ==> Blank(t) by { assert t[0..] == t; }
  }

  lemma {:induction false} BlankTrimStart(s: string)
    ensures Blank(s) ==> TrimStart(s) == ""
  {
    if |s| > 0 {
      BlankTrimStart(s[1..]);
    }
  }

  /** Trimming undoes one leading space in front of an already trimmed string. */
  lemma TrimLeadingSpace(x: string)
    requires Trimmed(x)
    ensures Trim([' '] + x) == x
  {
    assert ([' '] + x)[1..] == x;
    assert TrimStart(x) == x;
  }

  /** `s.split(sep)` with a one-character separator. Like JavaScript's, it
      never returns an empty array: `"".split(",")` is `[""]`. */
  function Split(s: string, sep: char): (parts: seq<string>)
    ensures |parts| >= 1
    ensures forall i :: 0 <= i < |parts| ==> sep !in parts[i]
  {
    if |s| == 0 then [""]
    else
      var rest := Split(s[1..], sep);
      if s[0] == sep then [""] + rest
      else [[s[0]] + rest[0]] + rest[1..]
  }

  /** `parts.join(sep)`. */
  function Join(parts: seq<string>, sep: string): string
  {
    if |parts| == 0 then ""
    else if |parts| == 1 then parts[0]
    else parts[0] + sep + Join(parts[1..], sep)
  }

  lemma JoinCons(x: string, rest: seq<string>, sep: string)
    requires |rest| >= 1
    ensures Join([x] + rest, sep) == x + sep + Join(rest, sep)
  {
    assert ([x] + rest)[1..] == rest;
  }

  /** Joining the parts of a split with the separator gives back the string. */
  lemma {:induction false} JoinOfSplit(s: string, c: char)
    ensures Join(Split(s, c), [c]) == s
  {
    if |s| > 0 {
      var rest := Split(s[1..], c);
      JoinOfSplit(s[1..], c);
      if s[0] == c {
        JoinCons("", rest, [c]);
        assert s == [c] + s[1..];
      } else if |rest| == 1 {
        assert s == [s[0]] + s[1..];
      } else {
        var head := [s[0]] + rest[0];
        assert Split(s, c) == [head] + rest[1..];
        JoinCons(head, rest[1..], [c]);
        assert rest == [rest[0]] + rest[1..];
        JoinCons(rest[0], rest[1..], [c]);
        assert s == [s[0]] + s[1..];
      }
    }
  }

  /** A string without the separator splits into itself alone. */
  lemma {:induction false} SplitWithoutSeparator(x: string, c: char)
    requires c !in x
    ensures Split(x, c) == [x]
  {
    if |x| > 0 {
      assert c !in x[1..];
      SplitWithoutSeparator(x[1..], c);
      assert x == [x[0]] + x[1..];
    }
  }

  /** Splitting stops at the first separator. */
  lemma {:induction false} SplitAtSeparator(x: string, rest: string, c: char)
    requires c !in x
    ensures Split(x + [c] + rest, c) == [x] + Split(rest, c)
  {
    var s := x + [c] + rest;
    if |x| == 0 {
      assert s == [c] + rest && s[1..] == rest;
    } else {
      assert s[0] == x[0] && s[1..] == x[1..] + [c] + rest;
      assert c !in x[1..];
      SplitAtSeparator(x[1..], rest, c);
      assert x == [x[0]] + x[1..];
    }
  }

  /** Splitting a join gives back the parts when no part holds the separator.
      The empty list is the exception: it joins to `""`, which splits to `[""]`. */
  lemma {:induction false} SplitOfJoin(parts: seq<string>, c: char)
    requires |parts| >= 1
    requires forall i :: 0 <= i < |parts| ==> c !in parts[i]
    ensures Split(Join(parts, [c]), c) == parts
  {
    if |parts| == 1 {
      SplitWithoutSeparator(parts[0], c);
    } else {
      SplitOfJoin(parts[1..], c);
      SplitAtSeparator(parts[0], Join(parts[1..], [c]), c);
      assert parts == [parts[0]] + parts[1..];
    }
  }

  /** `s.replace(from, to)` with a one-character pattern: only the first
      occurrence is replaced. */
  function ReplaceFirst(s: string, from: char, to: char): (r: string)
    ensures |r| == |s|
    ensures from !in s ==> r == s
    ensures from in s ==> r == s[..Seqs.IndexOf(s, from)] + [to] + s[Seqs.IndexOf(s, from) + 1..]
  {
    if |s| == 0 then s
    else if s[0] == from then [to] + s[1..]
    else
      var r := [s[0]] + ReplaceFirst(s[1..], from, to);
      assert from in s ==> from in s[1..] && Seqs.IndexOf(s, from) == Seqs.IndexOf(s[1..], from) + 1;
      r
  }

  /** `s.startsWith(prefix)`. */
  predicate StartsWith(s: string, prefix: string)
  {
    |prefix| <= |s| && s[..|prefix|] == prefix
  }

  /** ASCII `toUpperCase` of one character. */
  function UpperChar(c: char): (u: char)
    ensures 'a' <= c <= 'z' ==> 'A' <= u <= 'Z' && u as int == c as int - 32
    ensures !('a' <= c <= 'z') ==> u == c
  {
    if 'a' <= c <= 'z' then (c as int - 32) as char else c
  }

  /** `s.charAt(0).toUpperCase() + s.slice(1)`. `charAt(0)` of `""` is `""`. */
  function Capitalize(s: string): (r: string)
    ensures |r| == |s|
    ensures |s| > 0 ==> r[0] == UpperChar(s[0]) && r[1..] == s[1..]
  {
    if |s| == 0 then "" else [UpperChar(s[0])] + s[1..]
  }

  /** `s.charAt(0)`: the first character as a string, or `""`. */
  function FirstChar(s: string): (r: string)
    ensures |s| == 0 ==> r == ""
    ensures |s| > 0 ==> |r| == 1 && r[0] == s[0]
  {
    if |s| == 0 then "" else s[..1]
  }

  /** The decimal digit for `d`. */
  function Digit(d: nat): char
    requires d < 10
  {
    ('0' as int + d) as char
  }

  /** The value of a decimal digit. */
  function DigitValue(c: char): nat
  {
    if '0' <= c <= '9' then c as int - '0' as int else 0
  }

  /** How a template literal renders a non-negative integer: its decimal digits. */
  function NatToString(n: nat): (r: string)
    ensures |r| >= 1
    ensures forall i :: 0 <= i < |r| ==> '0' <= r[i] <= '9'
    ensures r[0] == '0' <==> n == 0
    ensures |r| == 1 || r[0] != '0'
  {
    if n < 10 then [Digit(n)] else NatToString(n / 10) + [Digit(n % 10)]
  }

  /** The number a string of decimal digits denotes. */
  function DecimalValue(s: string): nat
  {
    if |s| == 0 then 0 else DecimalValue(s[..|s| - 1]) * 10 + DigitValue(s[|s| - 1])
  }

  /** Reading the rendered digits back gives the number: rendering is injective. */
  lemma {:induction false} DecimalRoundTrip(n: nat)
    ensures DecimalValue(NatToString(n)) == n
  {
    if n >= 10 {
      var r := NatToString(n);
      var q, d := n / 10, n % 10;
      assert n == q * 10 + d;
      DecimalRoundTrip(q);
      assert r[..|r| - 1] == NatToString(q);
      assert DigitValue(r[|r| - 1]) == d;
    }
  }
}
