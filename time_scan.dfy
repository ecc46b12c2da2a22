/** The regular expressions the monitors use to pull tee times and counts out of text,
    written as scanners with Python `re` semantics: leftmost start, greedy quantifiers,
    alternatives tried in their written order.

      time, strict   `\d{1,2}:\d{2}\s*(?:am|pm|AM|PM)`
      time, loose    `\d{1,2}:\d{2}\s*(?:am|pm)?`  under `re.IGNORECASE`
      count          `(\d+)\s*(?:w1|w2|...)`, or `(\d+)` alone */
module TimeScan {
  import opened Text

  datatype TimePattern = Strict | Loose

  /** Length of the `\d{1,2}` hour when a colon follows it (0 when the pattern fails here).
      Greedy: two digits are tried first; falling back to one digit needs a colon right
      after the first, which a second digit rules out. */
  function HourLen(s: string, i: nat): (h: nat)
    requires i <= |s|
    ensures h <= 2
    ensures h > 0 ==> i + h < |s| && s[i + h] == ':' && forall k | i <= k < i + h :: IsDigit(s[k])
  {
    if i + 2 < |s| && IsDigit(s[i]) && IsDigit(s[i + 1]) && s[i + 2] == ':' then 2
    else if i + 1 < |s| && IsDigit(s[i]) && s[i + 1] == ':' then 1
    else 0
  }

  predicate StrictMeridiemAt(s: string, j: nat) {
    j + 2 <= |s| && (s[j..j + 2] == "am" || s[j..j + 2] == "pm" || s[j..j + 2] == "AM" || s[j..j + 2] == "PM")
  }

  predicate AnyCaseMeridiemAt(s: string, j: nat) {
    j + 2 <= |s| && (s[j] in "aApP") && (s[j + 1] in "mM")
  }

  /** Length of the match of `p` that starts at `i`, if the pattern matches there. The
      greedy `\s*` eats all whitespace; giving some back never helps, because what follows
      it cannot start with whitespace. */
  function MatchAt(s: string, i: nat, p: TimePattern): (r: Option<nat>)
    requires i <= |s|
    ensures r.Some? ==> 4 <= r.value && i + r.value <= |s|
  {
    var h := HourLen(s, i);
    if h == 0 then None
    else
      var m := i + h + 1;
      if !(m + 2 <= |s| && IsDigit(s[m]) && IsDigit(s[m + 1])) then None
      else
        var j := SpaceEnd(s, m + 2);
        match p
        case Strict => if StrictMeridiemAt(s, j) then Some(j + 2 - i) else None
        case Loose => if AnyCaseMeridiemAt(s, j) then Some(j + 2 - i) else Some(j - i)
  }

  /** The leftmost match at or after `i`, as (start, length). */
  function FirstMatchFrom(s: string, i: nat, p: TimePattern): (r: Option<(nat, nat)>)
    requires i <= |s|
    ensures r.Some? ==> i <= r.value.0 <= |s| && MatchAt(s, r.value.0, p) == Some(r.value.1)
    ensures r.Some? ==> forall k | i <= k < r.value.0 :: MatchAt(s, k, p).None?
    ensures r.None? ==> forall k | i <= k <= |s| :: MatchAt(s, k, p).None?
    decreases |s| - i
  {
    match MatchAt(s, i, p)
    case Some(len) => Some((i, len))
    case None => if i == |s| then None else FirstMatchFrom(s, i + 1, p)
  }

  /** `re.search(p, s).group(1)`: the text of the leftmost match. */
  function Search(s: string, p: TimePattern): Option<string> {
    match FirstMatchFrom(s, 0, p)
    case Some((k, len)) => Some(s[k..k + len])
    case None => None
  }

  /** `re.findall(p, s)` from position `i`: non-overlapping matches, left to right. */
  function FindAllFrom(s: string, i: nat, p: TimePattern): (r: seq<string>)
    requires i <= |s|
    ensures forall t | t in r :: IsToken(t, p)
    decreases |s| - i
  {
    match FirstMatchFrom(s, i, p)
    case Some((k, len)) =>
      MatchSlice(s, k, len, p);
      [s[k..k + len]] + FindAllFrom(s, k + len, p)
    case None => []
  }

  function FindAll(s: string, p: TimePattern): seq<string> {
    FindAllFrom(s, 0, p)
  }

  /** Every piece `findall` returns is, in full, a time token. */
  lemma FindAllTokens(s: string, p: TimePattern)
    ensures forall t | t in FindAll(s, p) :: IsToken(t, p)
  {
  }

  /** `re.findall(p, s)[0]` is `re.search(p, s).group(1)`. */
  lemma FindAllHeadIsSearch(s: string, p: TimePattern)
    ensures FindAll(s, p) != [] <==> Search(s, p).Some?
    ensures FindAll(s, p) != [] ==> FindAll(s, p)[0] == Search(s, p).value
  {
  }

  /** A time token: a string that is, in full, one match of the pattern. */
  predicate IsToken(t: string, p: TimePattern) {
    MatchAt(t, 0, p) == Some(|t|)
  }

  lemma {:induction false} SpaceEndPrefix(t: string, rest: string, j: nat)
    requires j <= |t| && SpaceEnd(t, j) < |t|
    ensures SpaceEnd(t + rest, j) == SpaceEnd(t, j)
    decreases |t| - j
  {
    var s := t + rest;
    if j < |t| && IsSpace(t[j]) {
      SpaceEndPrefix(t, rest, j + 1);
    }
  }

  /** A strict token keeps matching, with the same extent, whatever follows it. */
  lemma StrictTokenPrefix(t: string, rest: string)
    requires IsToken(t, Strict)
    ensures MatchAt(t + rest, 0, Strict) == Some(|t|)
  {
    var s := t + rest;
    var h := HourLen(t, 0);
    assert HourLen(s, 0) == h;
    var m := h + 1;
    var j := SpaceEnd(t, m + 2);
    assert j + 2 == |t|;
    SpaceEndPrefix(t, rest, m + 2);
    assert s[j..j + 2] == t[j..j + 2];
  }

  /** Every text `Search` returns is a token; and a token is found in full at the front of
      any string it starts. */
  lemma SearchFindsToken(s: string, p: TimePattern)
    requires Search(s, p).Some?
    ensures IsToken(Search(s, p).value, p)
  {
    match FirstMatchFrom(s, 0, p)
    case Some((k, len)) => SliceIsToken(s, k, len, p);
  }

  /** The characters of a match, taken on their own, are a token. */
  lemma SliceIsToken(s: string, k: nat, len: nat, p: TimePattern)
    requires k <= |s| && MatchAt(s, k, p) == Some(len)
    ensures IsToken(s[k..k + len], p)
  {
    MatchSlice(s, k, len, p);
  }

  lemma {:induction false} SpaceEndSlice(s: string, a: nat, b: nat, j: nat)
    requires a <= j <= b <= |s| && SpaceEnd(s, j) <= b
    ensures SpaceEnd(s[a..b], j - a) == SpaceEnd(s, j) - a
    decreases b - j
  {
    if j < b && IsSpace(s[j]) {
      SpaceEndSlice(s, a, b, j + 1);
    }
  }

  /** `MatchAt` read off the parts of a match: the hour, the two minute digits, the
      spaces after them, and what follows the spaces. */
  lemma MatchAtParts(t: string, i: nat, h: nat, j: nat, p: TimePattern)
    requires i <= |t| && h == HourLen(t, i) && h > 0
    requires i + h + 3 <= |t| && IsDigit(t[i + h + 1]) && IsDigit(t[i + h + 2])
    requires j == SpaceEnd(t, i + h + 3)
    ensures p.Strict? ==> MatchAt(t, i, p) == if StrictMeridiemAt(t, j) then Some(j + 2 - i) else None
    ensures p.Loose? ==> MatchAt(t, i, p) == if AnyCaseMeridiemAt(t, j) then Some(j + 2 - i) else Some(j - i)
  {
  }

  /** What `MatchAt` sees of a match depends only on the matched characters. */
  lemma MatchSlice(s: string, k: nat, len: nat, p: TimePattern)
    requires k <= |s| && MatchAt(s, k, p) == Some(len)
    ensures MatchAt(s[k..k + len], 0, p) == Some(len)
  {
    var h := HourLen(s, k);
    var j := SpaceEnd(s, k + h + 3);
    MatchAtParts(s, k, h, j, p);
    PartsSlice(s, k, len, h, j, p);
  }

  /** A match given by its parts is found again, with the same length, in the slice it
      covers. */
  lemma PartsSlice(s: string, k: nat, len: nat, h: nat, j: nat, p: TimePattern)
    requires k + len <= |s| && h == HourLen(s, k) && h > 0
    requires k + h + 3 <= j <= k + len && IsDigit(s[k + h + 1]) && IsDigit(s[k + h + 2])
    requires j == SpaceEnd(s, k + h + 3)
    requires p.Strict? ==> StrictMeridiemAt(s, j) && len == j + 2 - k
    requires p.Loose? ==> (AnyCaseMeridiemAt(s, j) && len == j + 2 - k) || (!AnyCaseMeridiemAt(s, j) && len == j - k)
    ensures MatchAt(s[k..k + len], 0, p) == Some(len)
  {
    SliceParts(s, k, len, h, j);
    SuffixSlice(s, k, len, j, p);
    MatchAtParts(s[k..k + len], 0, h, j - k, p);
  }

  /** The hour, the minute digits and the spaces of a match, seen inside the slice. */
  lemma SliceParts(s: string, k: nat, len: nat, h: nat, j: nat)
    requires k + len <= |s| && h == HourLen(s, k) && h > 0
    requires k + h + 3 <= j <= k + len && IsDigit(s[k + h + 1]) && IsDigit(s[k + h + 2])
    requires j == SpaceEnd(s, k + h + 3)
    ensures HourLen(s[k..k + len], 0) == h
    ensures IsDigit(s[k..k + len][h + 1]) && IsDigit(s[k..k + len][h + 2])
    ensures SpaceEnd(s[k..k + len], h + 3) == j - k
  {
    HourSlice(s, k, len);
    SpaceEndSlice(s, k, k + len, k + h + 3);
  }

  lemma HourSlice(s: string, k: nat, len: nat)
    requires k + len <= |s| && HourLen(s, k) > 0 && k + HourLen(s, k) + 3 <= k + len
    ensures HourLen(s[k..k + len], 0) == HourLen(s, k)
  {
    var t := s[k..k + len];
    assert t[0] == s[k] && t[1] == s[k + 1] && t[2] == s[k + 2];
  }

  lemma SuffixSlice(s: string, k: nat, len: nat, j: nat, p: TimePattern)
    requires k <= j <= |s| && k + len <= |s|
    requires p.Strict? ==> StrictMeridiemAt(s, j) && len == j + 2 - k
    requires p.Loose? ==> (AnyCaseMeridiemAt(s, j) && len == j + 2 - k) || (!AnyCaseMeridiemAt(s, j) && len == j - k)
    ensures p.Strict? ==> StrictMeridiemAt(s[k..k + len], j - k)
    ensures p.Loose? ==> (AnyCaseMeridiemAt(s[k..k + len], j - k) <==> AnyCaseMeridiemAt(s, j))
  {
    var t := s[k..k + len];
    if len == j + 2 - k {
      assert t[j - k..j - k + 2] == s[j..j + 2];
    }
  }

  // ---------------------------------------------------------------- counts

  /** What must follow the digits of a count: nothing in particular (`(\d+)`), or,
      after optional whitespace, one of the given words (`(\d+)\s*(?:spots?|players?)`). */
  datatype CountTail = AnyTail | Word(words: seq<string>)

  predicate TailAt(s: string, j: nat, tail: CountTail)
    requires j <= |s|
  {
    match tail
    case AnyTail => true
    case Word(words) => exists w | w in words :: StartsWith(s[SpaceEnd(s, j)..], w)
  }

  /** The count matched at `k`: `\d+` takes the whole run of digits; a shorter run leaves a
      digit where the whitespace or the word must begin, so backing off never helps. */
  function CountAt(s: string, k: nat, tail: CountTail): (r: Option<nat>)
    requires k <= |s|
  {
    if k < |s| && IsDigit(s[k]) then
      var e := RunEnd(s, k);
      if TailAt(s, e, tail) then Some(DigitsValue(s[k..e])) else None
    else None
  }

  /** `int(re.search(pattern, s).group(1))`, searching from `k`. */
  function FirstCountFrom(s: string, k: nat, tail: CountTail): (r: Option<nat>)
    requires k <= |s|
    decreases |s| - k
  {
    if CountAt(s, k, tail).Some? then CountAt(s, k, tail)
    else if k == |s| then None
    else FirstCountFrom(s, k + 1, tail)
  }

  function FirstCount(s: string, tail: CountTail): Option<nat> {
    FirstCountFrom(s, 0, tail)
  }

  /** The first count from `k` is the one at `q0` when the pattern matches there and
      nowhere between `k` and `q0`; and there is none when it matches nowhere. */
  lemma {:induction false} FirstCountIsLeftmost(s: string, k: nat, q0: nat, tail: CountTail)
    requires k <= q0 <= |s|
    requires forall q | k <= q < q0 :: CountAt(s, q, tail).None?
    ensures CountAt(s, q0, tail).Some? ==> FirstCountFrom(s, k, tail) == CountAt(s, q0, tail)
    ensures q0 == |s| ==> FirstCountFrom(s, k, tail).None?
    decreases q0 - k
  {
    if k < q0 {
      FirstCountIsLeftmost(s, k + 1, q0, tail);
    }
  }
}
