/** Character classes and the few Python string built-ins the bots rely on:
    `str(n)` for a non-negative int, `int(s)`, `s.strip()`, `s.split(sep)`,
    `sub in s` and `s.lower()` (ASCII letters only). */
module Text {

  datatype Option<+T> = None | Some(value: T) {
    function GetOr(default: T): T {
      match this
      case Some(v) => v
      case None => default
    }
  }

  predicate IsDigit(c: char) { '0' <= c <= '9' }

  function DigitValue(c: char): (d: nat)
    requires IsDigit(c)
    ensures d < 10
  {
    (c as int) - ('0' as int)
  }

  /** The strptime field `1[0-2]|0[1-9]|[1-9]` covering the whole of `s`: the pattern
      Python uses for both `%m` (the month) and `%I` (the hour on a 12-hour clock). */
  function TwelveField(s: string): (r: Option<nat>)
    ensures r.Some? ==> 1 <= r.value <= 12
  {
    if |s| == 2 && s[0] == '1' && '0' <= s[1] <= '2' then Some(10 + DigitValue(s[1]))
    else if |s| == 2 && s[0] == '0' && '1' <= s[1] <= '9' then Some(DigitValue(s[1]))
    else if |s| == 1 && '1' <= s[0] <= '9' then Some(DigitValue(s[0]))
    else None
  }

  function DigitChar(d: nat): (c: char)
    requires d < 10
    ensures IsDigit(c) && DigitValue(c) == d
  {
    ((('0' as int) + d) as char)
  }

  /** Python's whitespace (`str.isspace`, `\s` in a str pattern, what `strip()` removes). */
  predicate IsSpace(c: char) {
    var n := c as int;
    (9 <= n <= 13) || (28 <= n <= 32) || n == 0x85 || n == 0xA0 || n == 0x1680
    || (0x2000 <= n <= 0x200A) || n == 0x2028 || n == 0x2029 || n == 0x202F
    || n == 0x205F || n == 0x3000
  }

  predicate AllDigits(s: string) {
    forall i | 0 <= i < |s| :: IsDigit(s[i])
  }

  /** The value of a string of decimal digits (leading zeros allowed, as in `int("007")`). */
  function DigitsValue(s: string): nat
    requires AllDigits(s)
    decreases |s|
  {
    if s == [] then 0 else 10 * DigitsValue(s[..|s| - 1]) + DigitValue(s[|s| - 1])
  }

  /** Python `str(n)` for `n >= 0`: decimal, no leading zero. */
  function NatToString(n: nat): (s: string)
    ensures s != [] && AllDigits(s)
    ensures DigitsValue(s) == n
    ensures s[0] == '0' ==> n == 0
    decreases n
  {
    if n < 10 then [DigitChar(n)]
    else
      var init := NatToString(n / 10);
      var s := init + [DigitChar(n % 10)];
      assert s[..|s| - 1] == init;
      s
  }

  /** The end of the maximal run of digits that starts at `i`. */
  function RunEnd(s: string, i: nat): (e: nat)
    requires i <= |s|
    ensures i <= e <= |s|
    ensures forall k | i <= k < e :: IsDigit(s[k])
    ensures e < |s| ==> !IsDigit(s[e])
    decreases |s| - i
  {
    if i < |s| && IsDigit(s[i]) then RunEnd(s, i + 1) else i
  }

  /** The first position at or after `j` that is not whitespace. */
  function SpaceEnd(s: string, j: nat): (e: nat)
    requires j <= |s|
    ensures j <= e <= |s|
    ensures forall k | j <= k < e :: IsSpace(s[k])
    ensures e < |s| ==> !IsSpace(s[e])
    decreases |s| - j
  {
    if j < |s| && IsSpace(s[j]) then SpaceEnd(s, j + 1) else j
  }

  predicate StartsWith(s: string, prefix: string) {
    |prefix| <= |s| && s[..|prefix|] == prefix
  }

  /** Python `sub in s` for strings. */
  predicate Contains(s: string, sub: string)
    decreases |s|
  {
    StartsWith(s, sub) || (s != [] && Contains(s[1..], sub))
  }

  function TrimStart(s: string): (r: string)
    ensures |r| <= |s| && r == s[|s| - |r|..]
    ensures r != [] ==> !IsSpace(r[0])
    ensures forall k | 0 <= k < |s| - |r| :: IsSpace(s[k])
    decreases |s|
  {
    if s != [] && IsSpace(s[0]) then TrimStart(s[1..]) else s
  }

  function TrimEnd(s: string): (r: string)
    ensures |r| <= |s| && r == s[..|r|]
    ensures r != [] ==> !IsSpace(r[|r| - 1])
    ensures forall k | |r| <= k < |s| :: IsSpace(s[k])
    decreases |s|
  {
    if s != [] && IsSpace(s[|s| - 1]) then TrimEnd(s[..|s| - 1]) else s
  }

  /** Python `s.strip()`. */
  function Strip(s: string): string {
    TrimEnd(TrimStart(s))
  }

  /** Python `int(s)` restricted to ASCII digits: surrounding whitespace, an optional
      sign, then one or more of `0`-`9`; every other text gives `None`. Python also reads
      digits separated by single underscores and non-ASCII decimal digits, which this
      function does not. */
  function PyInt(s: string): Option<int> {
    var t := Strip(s);
    if t != [] && (t[0] == '+' || t[0] == '-') then
      var body := t[1..];
      if body != [] && AllDigits(body) then
        Some(if t[0] == '-' then -(DigitsValue(body) as int) else DigitsValue(body))
      else None
    else if t != [] && AllDigits(t) then Some(DigitsValue(t))
    else None
  }

  /** Python `s.split(sep)` for a one-character separator. */
  function Split(s: string, sep: char): (parts: seq<string>)
    ensures |parts| >= 1
    ensures forall k | 0 <= k < |parts| :: sep !in parts[k]
    decreases |s|
  {
    if s == [] then [""]
    else
      var rest := Split(s[1..], sep);
      if s[0] == sep then [""] + rest
      else [[s[0]] + rest[0]] + rest[1..]
  }

  /** `sep.join(parts)`, the inverse of `Split`. */
  function Join(parts: seq<string>, sep: char): string
    decreases |parts|
  {
    if parts == [] then ""
    else if |parts| == 1 then parts[0]
    else parts[0] + [sep] + Join(parts[1..], sep)
  }

  lemma {:induction false} SplitJoin(s: string, sep: char)
    ensures Join(Split(s, sep), sep) == s
    decreases |s|
  {
    if s != [] {
      SplitJoin(s[1..], sep);
      var rest := Split(s[1..], sep);
      if s[0] != sep {
        if |rest| == 1 {
          assert Split(s, sep) == [[s[0]] + rest[0]];
        } else {
          assert Split(s, sep)[1..] == rest[1..];
          assert Join(Split(s, sep), sep) == [s[0]] + rest[0] + [sep] + Join(rest[1..], sep);
          assert Join(rest, sep) == rest[0] + [sep] + Join(rest[1..], sep);
        }
      } else {
        assert Split(s, sep)[1..] == rest;
      }
    }
  }

  lemma {:induction false} SplitNoSep(b: string, sep: char)
    requires sep !in b
    ensures Split(b, sep) == [b]
    decreases |b|
  {
    if b != [] {
      SplitNoSep(b[1..], sep);
      assert [b[0]] + b[1..] == b;
    }
  }

  /** Splitting at the first separator peels off the text before it. */
  lemma {:induction false} SplitAtFirst(a: string, b: string, sep: char)
    requires sep !in a
    ensures Split(a + [sep] + b, sep) == [a] + Split(b, sep)
    decreases |a|
  {
    if a == [] {
      assert a + [sep] + b == [sep] + b;
      assert ([sep] + b)[1..] == b;
    } else {
      SplitAtFirst(a[1..], b, sep);
      assert (a + [sep] + b)[1..] == a[1..] + [sep] + b;
      assert [a[0]] + a[1..] == a;
    }
  }

  /** `s.split(sep)` undoes `sep.join(parts)` when no part holds the separator. */
  lemma {:induction false} SplitOfJoin(parts: seq<string>, sep: char)
    requires |parts| >= 1 && forall k | 0 <= k < |parts| :: sep !in parts[k]
    ensures Split(Join(parts, sep), sep) == parts
    decreases |parts|
  {
    if |parts| == 1 {
      SplitNoSep(parts[0], sep);
    } else {
      SplitOfJoin(parts[1..], sep);
      SplitAtFirst(parts[0], Join(parts[1..], sep), sep);
      assert [parts[0]] + parts[1..] == parts;
    }
  }

  /** The run of digits from `i` ends at `e` when everything before `e` is a digit and
      what is at `e` is not. */
  lemma {:induction false} RunEndIs(s: string, i: nat, e: nat)
    requires i <= e <= |s| && (forall k | i <= k < e :: IsDigit(s[k])) && (e < |s| ==> !IsDigit(s[e]))
    ensures RunEnd(s, i) == e
    decreases e - i
  {
    if i < e {
      RunEndIs(s, i + 1, e);
    }
  }

  lemma {:induction false} SpaceEndIs(s: string, j: nat, e: nat)
    requires j <= e <= |s| && (forall k | j <= k < e :: IsSpace(s[k])) && (e < |s| ==> !IsSpace(s[e]))
    ensures SpaceEnd(s, j) == e
    decreases e - j
  {
    if j < e {
      SpaceEndIs(s, j + 1, e);
    }
  }

  /** Joining two non-empty lists is joining each and putting a separator between. */
  lemma {:induction false} JoinConcat(a: seq<string>, b: seq<string>, sep: char)
    requires a != [] && b != []
    ensures Join(a + b, sep) == Join(a, sep) + [sep] + Join(b, sep)
    decreases |a|
  {
    assert (a + b)[0] == a[0];
    if |a| == 1 {
      assert (a + b)[1..] == b;
    } else {
      JoinConcat(a[1..], b, sep);
      assert (a + b)[1..] == a[1..] + b;
    }
  }

  /** Joining a part that is itself joined with the same separator is joining its parts
      in its place. */
  lemma JoinNested(a: seq<string>, m: seq<string>, b: seq<string>, sep: char)
    requires a != [] && m != [] && b != []
    ensures Join(a + [Join(m, sep)] + b, sep) == Join(a + m + b, sep)
  {
    JoinConcat(a + [Join(m, sep)], b, sep);
    JoinConcat(a, [Join(m, sep)], sep);
    JoinConcat(a + m, b, sep);
    JoinConcat(a, m, sep);
  }

  /** `", ".join(parts)`: the parts with a comma and a space between neighbours. */
  function CommaJoin(parts: seq<string>): string
    decreases |parts|
  {
    if parts == [] then ""
    else if |parts| == 1 then parts[0]
    else parts[0] + ", " + CommaJoin(parts[1..])
  }

  /** The parts as a split at the commas returns them: the first as it was, each later
      one behind the space that followed its comma. */
  function SpaceLed(parts: seq<string>): (r: seq<string>)
    ensures |r| == |parts|
    ensures parts != [] ==> r[0] == parts[0]
    ensures forall k | 1 <= k < |parts| :: r[k] == " " + parts[k]
  {
    seq(|parts|, k requires 0 <= k < |parts| => if k == 0 then parts[0] else " " + parts[k])
  }

  /** Text put in front of the first part is in front of the whole join. */
  lemma JoinLead(p: string, x: string, rest: seq<string>, sep: char)
    ensures Join([p + x] + rest, sep) == p + Join([x] + rest, sep)
  {
    if rest != [] {
      assert ([p + x] + rest)[1..] == rest;
      assert ([x] + rest)[1..] == rest;
    }
  }

  /** `", ".join` is the one-character join of the space-led parts. */
  lemma {:induction false} CommaJoinIsJoin(parts: seq<string>)
    ensures CommaJoin(parts) == Join(SpaceLed(parts), ',')
    decreases |parts|
  {
    if |parts| == 1 {
      assert SpaceLed(parts) == parts;
    } else if |parts| >= 2 {
      var t := parts[1..];
      CommaJoinIsJoin(t);
      var led := SpaceLed(t);
      assert led == [t[0]] + led[1..];
      assert SpaceLed(parts)[1..] == [" " + t[0]] + led[1..];
      JoinLead(" ", t[0], led[1..], ',');
      assert Join(SpaceLed(parts), ',') == parts[0] + [','] + Join(SpaceLed(parts)[1..], ',');
    }
  }

  /** Splitting `", ".join(parts)` at its commas gives every part back, the later ones
      behind one space, when no part holds a comma of its own. */
  lemma CommaJoinSplits(parts: seq<string>)
    requires |parts| >= 1 && forall k | 0 <= k < |parts| :: ',' !in parts[k]
    ensures Split(CommaJoin(parts), ',') == SpaceLed(parts)
  {
    CommaJoinIsJoin(parts);
    var led := SpaceLed(parts);
    forall k | 0 <= k < |led|
      ensures ',' !in led[k]
    {
      if k > 0 {
        assert led[k] == " " + parts[k];
      }
    }
    SplitOfJoin(led, ',');
  }

  /** The digits of `a` make the whole run when what follows is not a digit. */
  lemma {:induction false} RunEndConcat(a: string, b: string, i: nat)
    requires i <= |a| && AllDigits(a)
    requires b == [] || !IsDigit(b[0])
    ensures RunEnd(a + b, i) == |a|
    decreases |a| - i
  {
    if i < |a| {
      RunEndConcat(a, b, i + 1);
    }
  }

  function LowerChar(c: char): char {
    if 'A' <= c <= 'Z' then ((c as int) + 32) as char else c
  }

  /** `s.lower()` restricted to ASCII letters. */
  function AsciiLower(s: string): (r: string)
    ensures |r| == |s|
    ensures forall k | 0 <= k < |s| :: r[k] == LowerChar(s[k])
  {
    seq(|s|, k requires 0 <= k < |s| => LowerChar(s[k]))
  }

  /** `int(str(n)) == n`: reading back a rendered count gives the count. */
  lemma PyIntOfNatToString(n: nat)
    ensures PyInt(NatToString(n)) == Some(n)
  {
    var t := NatToString(n);
    PyIntOfDigits(t);
  }

  /** A non-empty run of digits, with nothing around it, reads as its value. */
  lemma PyIntOfDigits(t: string)
    requires t != [] && AllDigits(t)
    ensures PyInt(t) == Some(DigitsValue(t))
  {
    assert !IsSpace(t[0]) && !IsSpace(t[|t| - 1]);
    assert TrimStart(t) == t;
    assert TrimEnd(t) == t;
    assert Strip(t) == t;
    assert t[0] != '+' && t[0] != '-';
  }
}
