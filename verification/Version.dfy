/** Parsing the version string of the engine (`pyrewire/_ffi/_loader.py`). */
module Version {
  import opened Wrappers

  // ---------------------------------------------------------------- Python's int(str)

  /** The spaces `int()` strips, as far as Latin-1 has any. */
  predicate IsSpace(c: char) {
    '\t' <= c <= '\r' || 0x1c <= c as int <= 0x20 || c as int == 0x85 || c as int == 0xa0
  }

  predicate IsDigit(c: char) {
    '0' <= c <= '9'
  }

  function DropSpaces(s: string): string {
    if s != "" && IsSpace(s[0]) then DropSpaces(s[1..]) else s
  }

  function DropTrailingSpaces(s: string): string {
    if s != "" && IsSpace(s[|s| - 1]) then DropTrailingSpaces(s[..|s| - 1]) else s
  }

  /** A digit string; single underscores may stand between digits. */
  function DigitsOf(s: string): Option<nat> {
    if s == "" || !IsDigit(s[|s| - 1]) then None
    else
      var last := s[|s| - 1] as int - '0' as int;
      var front := s[..|s| - 1];
      if front == "" then Some(last)
      else
        var more := if front[|front| - 1] == '_' then DigitsOf(front[..|front| - 1]) else DigitsOf(front);
        if more.None? then None else Some(10 * more.value + last)
  }

  /** `int(s)`, or `None` for its `ValueError`. */
  function IntOf(s: string): Option<int> {
    var t := DropTrailingSpaces(DropSpaces(s));
    if t != "" && t[0] == '-' then
      var n: Option<int> := DigitsOf(t[1..]);
      if n.None? then None else Some(-n.value)
    else if t != "" && t[0] == '+' then
      var n := DigitsOf(t[1..]);
      if n.None? then None else Some(n.value)
    else
      var n := DigitsOf(t);
      if n.None? then None else Some(n.value)
  }

  // ---------------------------------------------------------------- the parser

  /** A character of `[A-Za-z0-9.]`. */
  predicate IsLocalChar(c: char) {
    IsDigit(c) || 'A' <= c <= 'Z' || 'a' <= c <= 'z' || c == '.'
  }

  predicate AllLocal(s: string) {
    forall i :: 0 <= i < |s| ==> IsLocalChar(s[i])
  }

  /** The position of the last `+`, or the length of the string. */
  function LastPlus(s: string): (k: nat)
    ensures k <= |s|
    ensures k < |s| ==> s[k] == '+' && forall i :: k < i < |s| ==> s[i] != '+'
    ensures k == |s| ==> '+' !in s
  {
    if s == "" then 0
    else if s[|s| - 1] == '+' then |s| - 1
    else
      var k := LastPlus(s[..|s| - 1]);
      if k == |s| - 1 then |s| else k
  }

  /** `$` also matches before one trailing newline. */
  function Chomp(s: string): string {
    if s != "" && s[|s| - 1] == '\n' then s[..|s| - 1] else s
  }

  /** What the regular expression accepts after the `+`. */
  predicate Strippable(seg: string) {
    Chomp(seg) != "" && AllLocal(Chomp(seg))
  }

  /** `_pep440_base`: only the last `+` can start a match, since the class excludes `+`. */
  function Pep440Base(v: string): string {
    var k := LastPlus(v);
    if k < |v| && Strippable(v[k + 1..]) then v[..k] + (if v[|v| - 1] == '\n' then "\n" else "") else v
  }

  /** `str.split(".")`. */
  function Split(s: string): (r: seq<string>)
    ensures |r| >= 1
  {
    if s == "" then [""]
    else
      var rest := Split(s[1..]);
      if s[0] == '.' then [""] + rest else [[s[0]] + rest[0]] + rest[1..]
  }

  /** The `k`-th number of the triple: zero from the first component on that is not one. */
  function Component(parts: seq<string>, k: nat): int {
    if k < |parts| && forall j :: 0 <= j <= k ==> IntOf(parts[j]).Some? then IntOf(parts[k]).value else 0
  }

  type Triple = (int, int, int)

  function ParsedVersion(v: string): Triple {
    var parts := Split(Pep440Base(v));
    (Component(parts, 0), Component(parts, 1), Component(parts, 2))
  }

  /** `_parse_version`. */
  method ParseVersion(v: string) returns (r: Triple)
    ensures r == ParsedVersion(v)
  {
    hide IntOf, Split, Pep440Base;
    var parts := Split(Pep440Base(v));
    var nums: seq<int> := [];
    var i := 0;
    while i < |parts| && i < 3
      invariant 0 <= i <= 3 && i <= |parts| && |nums| == i
      invariant forall k :: 0 <= k < i ==> IntOf(parts[k]) == Some(nums[k])
    {
      var n := IntOf(parts[i]);
      if n.None? {
        break;
      }
      nums := nums + [n.value];
      i := i + 1;
    }
    while |nums| < 3
      invariant i <= |nums| <= 3
      invariant forall k :: 0 <= k < |nums| ==> nums[k] == Component(parts, k)
    {
      nums := nums + [0];
    }
    return (nums[0], nums[1], nums[2]);
  }

  /** Python's `<` on tuples of three. */
  predicate Less(a: Triple, b: Triple) {
    a.0 < b.0 || (a.0 == b.0 && (a.1 < b.1 || (a.1 == b.1 && a.2 < b.2)))
  }

  const MINIMUM: Triple := (0, 52, 0)

  /** `_verify_version` on the string the library reports: stripped, then parsed. */
  predicate Accepts(raw: string) {
    !Less(ParsedVersion(Pep440Base(raw)), MINIMUM)
  }

  /** The characters by code point: what `int()` strips, and what the expression takes behind a plus. */
  lemma Characters(c: char)
    ensures IsSpace(c) <==> c as int in {9, 10, 11, 12, 13, 28, 29, 30, 31, 32, 133, 160}
    ensures IsLocalChar(c) <==> 48 <= c as int <= 57 || 65 <= c as int <= 90 || 97 <= c as int <= 122 || c as int == 46
  {
  }

  /** A segment is stripped exactly if it is not empty and has only such characters, but for one
      newline at its end. */
  lemma StrippableIff(seg: string)
    ensures AllLocal(seg) && seg != "" ==> Strippable(seg) && Strippable(seg + "\n") && !Strippable(seg + "\n\n")
    ensures Strippable(seg) ==> seg != "" && seg != "\n" && AllLocal(seg[..|seg| - 1])
                                && (IsLocalChar(seg[|seg| - 1]) || seg[|seg| - 1] == '\n')
  {
    assert (seg + "\n")[..|seg|] == seg;
    assert Chomp(seg + "\n\n") == seg + "\n" && (seg + "\n")[|seg|] == '\n';
    assert !AllLocal(seg + "\n");
    if Strippable(seg) && Chomp(seg) == seg {
      assert IsLocalChar(seg[|seg| - 1]);
    }
  }

  // ---------------------------------------------------------------- printing

  function Digits(n: nat): (s: string)
    ensures s != "" && forall i :: 0 <= i < |s| ==> IsDigit(s[i])
  {
    (if n < 10 then "" else Digits(n / 10)) + [('0' as int + n % 10) as char]
  }

  function Print(a: nat, b: nat, c: nat): string {
    Digits(a) + "." + Digits(b) + "." + Digits(c)
  }

  lemma {:induction false} DigitsOfDigits(n: nat)
    ensures DigitsOf(Digits(n)) == Some(n)
  {
    var s := Digits(n);
    if n >= 10 {
      DigitsOfDigits(n / 10);
      assert s[..|s| - 1] == Digits(n / 10);
      assert s[..|s| - 1][|s| - 2] == s[|s| - 2];
    } else {
      assert s == [('0' as int + n) as char];
    }
  }

  lemma IntOfDigits(n: nat)
    ensures IntOf(Digits(n)) == Some(n)
    ensures IntOf(Digits(n) + "\n") == Some(n)
  {
    var s := Digits(n);
    DigitsOfDigits(n);
    assert (s + "\n")[..|s|] == s;
    assert DropTrailingSpaces(s + "\n") == DropTrailingSpaces(s);
  }

  lemma {:induction false} NoDigitsAround(s: string, k: nat)
    requires k < |s| && !IsDigit(s[k]) && s[k] != '_'
    ensures DigitsOf(s) == None
    decreases |s|
  {
    if s != "" && IsDigit(s[|s| - 1]) {
      var front := s[..|s| - 1];
      if front != "" {
        if front[|front| - 1] == '_' {
          NoDigitsAround(front[..|front| - 1], k);
        } else {
          NoDigitsAround(front, k);
        }
      }
    }
  }

  lemma {:induction false} TrailingSpacesOnly(s: string, k: nat)
    requires k < |s| && !IsSpace(s[k])
    ensures k < |DropTrailingSpaces(s)| <= |s| && DropTrailingSpaces(s) == s[..|DropTrailingSpaces(s)|]
    decreases |s|
  {
    if IsSpace(s[|s| - 1]) {
      TrailingSpacesOnly(s[..|s| - 1], k);
    }
  }

  /** A plus sign behind digits spoils the number. */
  lemma PlusSpoils(n: nat, rest: string)
    ensures IntOf(Digits(n) + "+" + rest) == None
  {
    var d := Digits(n);
    var s := d + "+" + rest;
    assert s[0] == d[0] && s[|d|] == '+';
    TrailingSpacesOnly(s, |d|);
    NoDigitsAround(DropTrailingSpaces(s), |d|);
  }

  // ---------------------------------------------------------------- splitting

  lemma {:induction false} SplitAtDot(x: string, y: string)
    requires '.' !in x
    ensures Split(x + "." + y) == [x] + Split(y)
    decreases |x|
  {
    var s := x + "." + y;
    if x == "" {
      assert s[1..] == y;
    } else {
      SplitAtDot(x[1..], y);
      assert s[1..] == x[1..] + "." + y;
      assert s[0] == x[0] != '.' && [x[0]] + x[1..] == x;
    }
  }

  lemma {:induction false} SplitWithoutDot(s: string)
    requires '.' !in s
    ensures Split(s) == [s]
    decreases |s|
  {
    if s != "" {
      SplitWithoutDot(s[1..]);
      assert s[0] != '.' && [s[0]] + s[1..] == s;
    }
  }

  /** The first component of a dot-free string with something behind it. */
  lemma {:induction false} SplitFirst(x: string, y: string)
    requires '.' !in x
    ensures Split(x + y)[0] == x + Split(y)[0]
    decreases |x|
  {
    if x == "" {
      assert x + y == y;
    } else {
      SplitFirst(x[1..], y);
      assert (x + y)[1..] == x[1..] + y && (x + y)[0] == x[0] != '.';
    }
  }

  lemma DigitsHaveNoDot(n: nat)
    ensures '.' !in Digits(n) && '+' !in Digits(n) && '\n' !in Digits(n)
  {
  }

  /** Two dot-free components in front of anything. */
  lemma SplitPair(x: string, y: string, end: string)
    requires '.' !in x && '.' !in y
    ensures Split(x + "." + y + "." + end) == [x, y] + Split(end)
  {
    hide Split;
    SplitAtDot(y, end);
    SplitAtDot(x, y + "." + end);
    assert x + "." + y + "." + end == x + "." + (y + "." + end);
  }

  /** The three components behind a printed triple: the third is whatever stands up to the dot. */
  lemma PrintedParts(a: nat, b: nat, c: nat, tail: string)
    ensures var parts := Split(Print(a, b, c) + tail);
            && |parts| >= 3 && parts[0] == Digits(a) && parts[1] == Digits(b)
            && parts[2] == Split(Digits(c) + tail)[0]
  {
    hide Split;
    var x, y, z := Digits(a), Digits(b), Digits(c);
    SplitPair(x, y, z + tail);
    assert Print(a, b, c) + tail == x + "." + y + "." + (z + tail);
  }

  /** The third component reads as the patch number, unless a plus sign follows it. */
  lemma ThirdComponent(c: nat, tail: string)
    ensures tail == "" || tail == "\n" || tail[0] == '.' ==> IntOf(Split(Digits(c) + tail)[0]) == Some(c)
    ensures tail != "" && tail[0] == '+' ==> IntOf(Split(Digits(c) + tail)[0]) == None
  {
    hide Digits, IntOf;
    IntOfDigits(c);
    DigitsHaveNoDot(c);
    SplitFirst(Digits(c), tail);
    var u := Split(tail)[0];
    if tail == "\n" {
      SplitWithoutDot(tail);
    } else if tail != "" && tail[0] == '+' {
      assert u == "+" + Split(tail[1..])[0];
      PlusSpoils(c, Split(tail[1..])[0]);
      assert Digits(c) + u == Digits(c) + "+" + Split(tail[1..])[0];
    } else if tail == "" || tail[0] == '.' {
      assert Digits(c) + u == Digits(c);
    }
  }

  /** What the parser makes of a triple followed by `tail`, once nothing is left to strip. */
  lemma PrintedTriple(a: nat, b: nat, c: nat, tail: string)
    ensures var parts := Split(Print(a, b, c) + tail);
            var t := (Component(parts, 0), Component(parts, 1), Component(parts, 2));
            && (tail == "" || tail == "\n" || tail[0] == '.' ==> t == (a, b, c))
            && (tail != "" && tail[0] == '+' ==> t == (a, b, 0))
  {
    PrintedParts(a, b, c, tail);
    IntOfDigits(a);
    IntOfDigits(b);
    ThirdComponent(c, tail);
  }

  lemma NothingToStrip(v: string)
    requires '+' !in v
    ensures Pep440Base(v) == v
  {
  }

  /** Fewer than three components, or one that is no number: zero stands for all from there on. */
  lemma OneComponent(a: nat)
    ensures ParsedVersion(Digits(a)) == (a, 0, 0) && ParsedVersion("") == (0, 0, 0)
  {
    hide Digits;
    IntOfDigits(a);
    DigitsHaveNoDot(a);
    NothingToStrip(Digits(a));
    SplitWithoutDot(Digits(a));
    assert Split("") == [""] && IntOf("") == None;
  }

  lemma TwoComponents(a: nat, b: nat)
    ensures ParsedVersion(Digits(a) + "." + Digits(b)) == (a, b, 0)
  {
    hide Digits, Split, IntOf;
    IntOfDigits(a);
    IntOfDigits(b);
    DigitsHaveNoDot(a);
    DigitsHaveNoDot(b);
    NothingToStrip(Digits(a) + "." + Digits(b));
    SplitWithoutDot(Digits(b));
    SplitAtDot(Digits(a), Digits(b));
  }

  lemma BrokenComponent(a: nat, x: string, b: nat)
    requires IntOf(x) == None && '.' !in x && '+' !in x
    ensures ParsedVersion(Digits(a) + "." + x + "." + Digits(b)) == (a, 0, 0)
  {
    hide Digits, Split, IntOf;
    IntOfDigits(a);
    DigitsHaveNoDot(a);
    DigitsHaveNoDot(b);
    NothingToStrip(Digits(a) + "." + x + "." + Digits(b));
    SplitPair(Digits(a), x, Digits(b));
  }

  predicate Blank(s: string) {
    forall i :: 0 <= i < |s| ==> IsSpace(s[i])
  }

  lemma {:induction false} DropBlank(s: string, x: string)
    requires Blank(s) && x != "" && !IsSpace(x[0])
    ensures DropSpaces(s + x) == x
    decreases |s|
  {
    if s == "" {
      assert s + x == x;
    } else {
      assert (s + x)[1..] == s[1..] + x;
      DropBlank(s[1..], x);
    }
  }

  lemma {:induction false} DropTrailingBlank(x: string, s: string)
    requires Blank(s) && x != "" && !IsSpace(x[|x| - 1])
    ensures DropTrailingSpaces(x + s) == x
    decreases |s|
  {
    if s == "" {
      assert x + s == x;
    } else {
      assert (x + s)[..|x + s| - 1] == x + s[..|s| - 1];
      DropTrailingBlank(x, s[..|s| - 1]);
    }
  }

  lemma StripAround(before: string, x: string, after: string)
    requires Blank(before) && Blank(after) && x != "" && !IsSpace(x[0]) && !IsSpace(x[|x| - 1])
    ensures DropTrailingSpaces(DropSpaces(before + x + after)) == x
  {
    assert before + x + after == before + (x + after);
    assert (x + after)[0] == x[0];
    DropBlank(before, x + after);
    DropTrailingBlank(x, after);
  }

  /** `int()` takes spaces around a number and a sign in front of it, */
  lemma IntOfSurrounded(n: nat, before: string, after: string)
    requires Blank(before) && Blank(after)
    ensures IntOf(before + Digits(n) + after) == Some(n)
    ensures IntOf(before + ("+" + Digits(n)) + after) == Some(n)
    ensures IntOf(before + ("-" + Digits(n)) + after).Some? && IntOf(before + ("-" + Digits(n)) + after).value + n == 0
  {
    hide Digits, DropSpaces, DropTrailingSpaces, DigitsOf;
    DigitsOfDigits(n);
    StripAround(before, Digits(n), after);
    StripAround(before, "-" + Digits(n), after);
    StripAround(before, "+" + Digits(n), after);
    assert ("-" + Digits(n))[1..] == Digits(n) && ("+" + Digits(n))[1..] == Digits(n);
  }

  /** and single underscores between digits. */
  lemma UnderscoresBetweenDigits(n: nat, d: char)
    requires IsDigit(d)
    ensures DigitsOf(Digits(n) + "_" + [d]) == Some(10 * n + (d as int - '0' as int))
    ensures DigitsOf(Digits(n) + "__" + [d]) == None && DigitsOf(Digits(n) + "_") == None
  {
    hide Digits;
    DigitsOfDigits(n);
    var s := Digits(n) + "_" + [d];
    assert s[..|s| - 1] == Digits(n) + "_" && (Digits(n) + "_")[..|Digits(n)|] == Digits(n);
    var u := Digits(n) + "__" + [d];
    assert u[..|u| - 1] == Digits(n) + "__" && (Digits(n) + "__")[..|Digits(n)| + 1] == Digits(n) + "_";
  }

  // ---------------------------------------------------------------- stripping

  /** What stripping may leave of the text behind a printed triple. */
  predicate Leaves(tail: string, rest: string) {
    if tail == "" then rest == ""
    else if tail[0] == '.' then rest != "" && rest[0] == '.'
    else if tail[0] == '+' then
      if Strippable(tail[1..]) then rest == "" || rest == "\n" else rest != "" && rest[0] == '+'
    else true
  }

  lemma NotStrippable(seg: string, i: nat)
    requires i < |seg| && seg[i] == '+'
    ensures !Strippable(seg)
  {
    var core := Chomp(seg);
    if i < |core| {
      assert core[i] == '+';
    }
  }

  lemma LastPlusIsBehind(p: string, tail: string)
    requires '+' !in p
    ensures LastPlus(p + tail) >= |p|
    ensures tail != "" && tail[0] == '+' && '+' !in tail[1..] ==> LastPlus(p + tail) == |p|
  {
    var v := p + tail;
    var k := LastPlus(v);
    assert forall i :: 0 <= i < |p| ==> v[i] == p[i];
    if tail != "" && tail[0] == '+' {
      assert v[|p|] == '+';
      if |p| < k < |v| {
        assert v[k] == tail[1..][k - |p| - 1];
      }
    }
  }

  /** Stripping keeps everything before the last plus sign. */
  lemma StrippedPrefix(v: string, n: nat)
    requires n <= LastPlus(v)
    ensures |Pep440Base(v)| >= n && Pep440Base(v)[..n] == v[..n]
    ensures Pep440Base(v) == v || Pep440Base(v) == v[..LastPlus(v)] || Pep440Base(v) == v[..LastPlus(v)] + "\n"
  {
  }

  lemma StripPlus(p: string, tail: string)
    requires '+' !in p && tail != "" && tail[0] == '+'
    ensures if Strippable(tail[1..]) then Pep440Base(p + tail) == p || Pep440Base(p + tail) == p + "\n"
            else |Pep440Base(p + tail)| > |p| && Pep440Base(p + tail)[|p|] == '+'
  {
    var v := p + tail;
    var k := LastPlus(v);
    LastPlusIsBehind(p, tail);
    assert v[..|p|] == p && v[|p|] == '+' && v[|p| + 1..] == tail[1..];
    if k == |p| {
      StrippedPrefix(v, |p|);
    } else {
      assert tail[1..][k - |p| - 1] == '+';
      NotStrippable(tail[1..], k - |p| - 1);
      StrippedPrefix(v, |p| + 1);
      assert v[..|p| + 1][|p|] == '+';
    }
  }

  /** Stripping changes only what follows the triple. */
  lemma StripKeepsTriple(p: string, tail: string) returns (rest: string)
    requires '+' !in p
    ensures Pep440Base(p + tail) == p + rest && Leaves(tail, rest)
  {
    var v := p + tail;
    var b := Pep440Base(v);
    LastPlusIsBehind(p, tail);
    StrippedPrefix(v, |p|);
    assert v[..|p|] == p;
    rest := b[|p|..];
    if tail != "" && tail[0] == '+' {
      StripPlus(p, tail);
    } else if tail != "" && tail[0] == '.' {
      assert v[|p|] == '.';
      assert LastPlus(v) > |p|;
      StrippedPrefix(v, |p| + 1);
      assert v[..|p| + 1][|p|] == '.';
    }
  }

  // ---------------------------------------------------------------- parse undoes print

  lemma PrintIsPlain(a: nat, b: nat, c: nat)
    ensures '+' !in Print(a, b, c) && '\n' !in Print(a, b, c) && Print(a, b, c) != ""
  {
  }

  /**
   Parsing undoes printing for every triple, alone or with anything behind it that starts with a
   dot. Behind a `+` it does exactly when the segment is one the regular expression strips, or the
   patch number is zero; any other segment turns the patch number into zero.
   */
  lemma ParseUndoesPrint(a: nat, b: nat, c: nat, tail: string)
    ensures tail == "" || tail[0] == '.' ==> ParsedVersion(Print(a, b, c) + tail) == (a, b, c)
    ensures tail != "" && tail[0] == '+' ==>
              && (ParsedVersion(Print(a, b, c) + tail) == (a, b, c) <==> Strippable(tail[1..]) || c == 0)
              && ParsedVersion(Print(a, b, c) + tail) in [(a, b, c), (a, b, 0)]
  {
    var p := Print(a, b, c);
    PrintIsPlain(a, b, c);
    var rest := StripKeepsTriple(p, tail);
    PrintedTriple(a, b, c, rest);
  }

  /** A segment PEP 440 allows but does not normalize loses the patch number. */
  lemma UnnormalizedSegmentLosesPatch()
    ensures ParsedVersion(Print(0, 52, 1) + "+py_1") == (0, 52, 0)
  {
    var tail := "+py_1";
    assert Chomp(tail[1..])[2] == '_';
    ParseUndoesPrint(0, 52, 1, tail);
  }

  /**
   The verdict on a printed version, with or without a dot-led or plus-led rest, is whether the
   triple is lexicographically at least the floor. It does not depend on the local segment, because
   the floor's patch number is zero.
   */
  lemma AcceptsIffAtLeastFloor(a: nat, b: nat, c: nat, tail: string)
    requires tail == "" || tail[0] == '.' || tail[0] == '+'
    ensures Accepts(Print(a, b, c) + tail) <==> !Less((a, b, c), MINIMUM)
    ensures Accepts(Print(a, b, c) + tail) <==> a > 0 || b >= 52
  {
    var p := Print(a, b, c);
    PrintIsPlain(a, b, c);
    var rest := StripKeepsTriple(p, tail);
    if rest == "\n" {
      LastPlusIsBehind(p, rest);
      PrintedTriple(a, b, c, rest);
    } else {
      ParseUndoesPrint(a, b, c, rest);
    }
  }
}
