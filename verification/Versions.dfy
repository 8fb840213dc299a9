/**
 Blueprint versions (blueprints.go): the order on version strings, the patch bump, and the list of
 available blueprints built from them.
 */
module Versions {
  import opened Options
  import opened Order
  import opened Text

  const MAX_INT := 0x7FFF_FFFF_FFFF_FFFF
  const MIN_INT := -0x8000_0000_0000_0000

  // ----- strconv -----

  predicate IsDigit(c: char) {
    '0' <= c <= '9'
  }

  predicate Digits(s: string) {
    forall i :: 0 <= i < |s| ==> IsDigit(s[i])
  }

  function Value(s: string): nat
    requires Digits(s)
  {
    if s == "" then 0 else Value(s[..|s| - 1]) * 10 + (s[|s| - 1] as int - '0' as int)
  }

  /** strconv.Atoi on a 64-bit int: an optional sign, at least one digit, in range. */
  function Atoi(s: string): Option<int> {
    var negative := s != "" && s[0] == '-';
    var t := if s != "" && (s[0] == '-' || s[0] == '+') then s[1..] else s;
    if t == "" || !Digits(t) then None
    else
      var n: int := if negative then -(Value(t) as int) else Value(t);
      if MIN_INT <= n <= MAX_INT then Some(n) else None
  }

  function Format(n: nat): string {
    var d := ('0' as int + n % 10) as char;
    if n < 10 then [d] else Format(n / 10) + [d]
  }

  /** Reading a formatted number gives it back. */
  lemma {:induction false} FormatReads(n: nat)
    ensures Format(n) != "" && Digits(Format(n)) && Value(Format(n)) == n
  {
    var d := ('0' as int + n % 10) as char;
    if n < 10 {
      assert [d][..0] == "";
    } else {
      FormatReads(n / 10);
      var r := Format(n);
      assert r[..|r| - 1] == Format(n / 10);
    }
  }

  /** %d. */
  function FormatInt(n: int): string {
    if n < 0 then "-" + Format(-n) else Format(n)
  }

  // ----- parsing a version -----

  function TrimPrefixV(s: string): string {
    if s != "" && s[0] == 'v' then s[1..] else s
  }

  /** The part of s before the first character of `stops`. */
  function UpTo(s: string, stops: string): string {
    if s == "" || s[0] in stops then "" else [s[0]] + UpTo(s[1..], stops)
  }

  lemma {:induction false} UpToMeans(s: string, stops: string)
    ensures var r := UpTo(s, stops);
            && r <= s
            && (forall i :: 0 <= i < |r| ==> r[i] !in stops)
            && (|r| < |s| ==> s[|r|] in stops)
  {
    if s != "" && s[0] !in stops {
      UpToMeans(s[1..], stops);
    }
  }

  type Core = (int, int, int)

  function PartValue(p: string): Option<int> {
    if p == "" then None
    else
      match Atoi(p)
      case Some(n) => if n < 0 then None else Some(n)
      case None => None
  }

  function CoreOf(parts: seq<string>): Option<Core> {
    if |parts| != 3 then None
    else
      match (PartValue(parts[0]), PartValue(parts[1]), PartValue(parts[2]))
      case (Some(a), Some(b), Some(c)) => Some((a, b, c))
      case _ => None
  }

  function ParseCore(v: string): Option<Core> {
    CoreOf(Split(UpTo(TrimPrefixV(TrimSpace(v)), "-+"), '.'))
  }

  /** parseVersionCore. */
  method ParseVersionCore(v: string) returns (core: Core, ok: bool)
    ensures ok == ParseCore(v).Some? && (ok ==> core == ParseCore(v).value)
  {
    hide Split, UpTo, TrimSpace, Atoi;
    var parts := Split(UpTo(TrimPrefixV(TrimSpace(v)), "-+"), '.');
    core := (0, 0, 0);
    if |parts| != 3 {
      return core, false;
    }
    for i := 0 to 3
      invariant forall j :: 0 <= j < i ==> PartValue(parts[j]).Some?
      invariant i > 0 ==> core.0 == PartValue(parts[0]).value
      invariant i > 1 ==> core.1 == PartValue(parts[1]).value
      invariant i > 2 ==> core.2 == PartValue(parts[2]).value
    {
      if parts[i] == "" {
        return core, false;
      }
      var n := Atoi(parts[i]);
      if n.None? || n.value < 0 {
        return core, false;
      }
      core := if i == 0 then (n.value, core.1, core.2)
              else if i == 1 then (core.0, n.value, core.2)
              else (core.0, core.1, n.value);
    }
    ok := true;
  }

  /** versionPrerelease. */
  function Prerelease(v: string): string {
    Cut(UpTo(TrimPrefixV(TrimSpace(v)), "+"), "-").after
  }

  // ----- the order -----

  predicate CoreNewer(a: Core, b: Core) {
    if a.0 != b.0 then a.0 > b.0 else if a.1 != b.1 then a.1 > b.1 else a.2 > b.2
  }

  /** versionIsNewer. Prerelease segments compare as strings. */
  predicate Newer(a: string, b: string) {
    if a == b then false
    else
      var ac, bc := ParseCore(a), ParseCore(b);
      if ac.Some? != bc.Some? then ac.Some?
      else if ac.None? then Less(b, a)
      else if ac.value != bc.value then CoreNewer(ac.value, bc.value)
      else
        var ap, bp := Prerelease(a), Prerelease(b);
        if ap == bp then Less(b, a)
        else if ap == "" then true
        else if bp == "" then false
        else Less(bp, ap)
  }

  /** "Is newer than" is a strict total order on all strings, versions or not. */
  lemma NewerStrictTotal()
    ensures StrictTotal(Newer)
  {
    forall a, b
      ensures a == b || Newer(a, b) || Newer(b, a)
    {
      NewerTotal(a, b);
    }
    forall a, b, c | Newer(a, b) && Newer(b, c)
      ensures Newer(a, c)
    {
      NewerTransitive(a, b, c);
    }
  }

  /** The numbers decide first, the major before the minor before the patch, whatever follows them. */
  lemma NumbersDecide(a: string, b: string)
    requires ParseCore(a).Some? && ParseCore(b).Some?
    ensures var x, y := ParseCore(a).value, ParseCore(b).value;
            && (x.0 > y.0 ==> Newer(a, b))
            && (x.0 == y.0 && x.1 > y.1 ==> Newer(a, b))
            && (x.0 == y.0 && x.1 == y.1 && x.2 > y.2 ==> Newer(a, b))
  {
    hide ParseCore, Prerelease, Less;
  }

  /** On the same three numbers a release is newer than each of its prereleases, two prereleases compare as
      strings, and spellings that differ in neither compare as strings. */
  lemma PrereleaseDecides(a: string, b: string)
    requires ParseCore(a).Some? && ParseCore(b) == ParseCore(a)
    ensures Prerelease(a) == "" && Prerelease(b) != "" ==> Newer(a, b)
    ensures Prerelease(a) != "" && Prerelease(b) != "" && Less(Prerelease(b), Prerelease(a)) ==> Newer(a, b)
    ensures Prerelease(a) == Prerelease(b) && Less(b, a) ==> Newer(a, b)
  {
    hide ParseCore, Prerelease;
    LessIrreflexive(a);
    LessIrreflexive(Prerelease(a));
  }

  /** A version is newer than any text that is none; two such texts compare as strings. */
  lemma ParsedIsNewer(a: string, b: string)
    requires ParseCore(b).None?
    ensures ParseCore(a).Some? ==> Newer(a, b)
    ensures ParseCore(a).None? && Less(b, a) ==> Newer(a, b)
  {
    hide ParseCore, Prerelease;
    LessIrreflexive(a);
  }

  lemma NewerTotal(a: string, b: string)
    ensures a == b || Newer(a, b) || Newer(b, a)
    ensures Newer(a, b) ==> !Newer(b, a)
  {
    hide ParseCore, Prerelease, Less;
    LessTotal(a, b);
    LessTotal(Prerelease(a), Prerelease(b));
    LessAsymmetric(a, b);
    LessAsymmetric(Prerelease(a), Prerelease(b));
  }

  lemma LessAsymmetric(a: string, b: string)
    ensures Less(a, b) ==> !Less(b, a)
  {
    if Less(a, b) && Less(b, a) {
      LessTransitive(a, b, a);
      LessIrreflexive(a);
    }
  }

  lemma NewerTransitive(a: string, b: string, c: string)
    requires Newer(a, b) && Newer(b, c)
    ensures Newer(a, c)
  {
    hide ParseCore, Prerelease, Less;
    LessAsymmetric(a, b);
    if Less(c, b) && Less(b, a) {
      LessTransitive(c, b, a);
    }
    var x, y, z := Prerelease(a), Prerelease(b), Prerelease(c);
    LessAsymmetric(x, y);
    if Less(z, y) && Less(y, x) {
      LessTransitive(z, y, x);
    }
    NewerDistinct(a, b, c);
  }

  lemma NewerDistinct(a: string, b: string, c: string)
    requires Newer(a, b) && Newer(b, c)
    ensures a != c
  {
    NewerTotal(a, b);
  }

  // ----- the patch bump -----

  function DigitPrefix(s: string): (r: string)
    ensures r <= s && Digits(r)
    ensures |r| < |s| ==> !IsDigit(s[|r|])
  {
    if s != "" && IsDigit(s[0]) then [s[0]] + DigitPrefix(s[1..]) else ""
  }

  function LeadNumber(part: string): Option<int> {
    if DigitPrefix(part) == "" then None else Atoi(DigitPrefix(part))
  }

  /** The leading numeric components of a dotted string, up to the first that has none. */
  function Nums(parts: seq<string>): seq<int> {
    if parts == [] || LeadNumber(parts[0]).None? then []
    else [LeadNumber(parts[0]).value] + Nums(parts[1..])
  }

  function Scanned(v: string): seq<int> {
    Nums(Split(TrimSpace(v), '.'))
  }

  function Component(nums: seq<int>, i: nat): int {
    if i < |nums| then nums[i] else 0
  }

  /** nums[2]++ on a 64-bit int. */
  function Increment(n: int): int {
    if n == MAX_INT then MIN_INT else n + 1
  }

  function Render(a: int, b: int, c: int): string {
    FormatInt(a) + "." + FormatInt(b) + "." + FormatInt(c)
  }

  function Next(v: string): string {
    var nums := Scanned(v);
    if nums == [] then "1.0.0"
    else Render(Component(nums, 0), Component(nums, 1), Increment(Component(nums, 2)))
  }

  /** The inner scan of nextVersion: the length of the leading digits. */
  method LeadingDigits(part: string) returns (i: nat)
    ensures i <= |part| && part[..i] == DigitPrefix(part)
  {
    i := 0;
    while i < |part| && '0' <= part[i] <= '9'
      invariant 0 <= i <= |part| && DigitPrefix(part) == part[..i] + DigitPrefix(part[i..])
    {
      DigitPrefixStep(part, i);
      i := i + 1;
    }
    assert part[i..] == "" || !IsDigit(part[i..][0]);
    assert part[..i] + "" == part[..i];
  }

  lemma DigitPrefixStep(part: string, i: nat)
    requires i < |part| && IsDigit(part[i])
    ensures part[..i] + DigitPrefix(part[i..]) == part[..i + 1] + DigitPrefix(part[i + 1..])
  {
    var s := part[i..];
    assert s[1..] == part[i + 1..];
    var tail := DigitPrefix(part[i + 1..]);
    assert DigitPrefix(s) == [s[0]] + tail;
    hide DigitPrefix;
    assert part[..i] + ([part[i]] + tail) == part[..i + 1] + tail;
  }

  /** The outer scan of nextVersion. */
  method ScanComponents(parts: seq<string>) returns (nums: seq<int>)
    ensures nums == Nums(parts)
  {
    hide Atoi, DigitPrefix;
    nums := [];
    for k := 0 to |parts|
      invariant nums + Nums(parts[k..]) == Nums(parts)
    {
      var part := parts[k];
      var i := LeadingDigits(part);
      if i == 0 {
        assert nums + [] == nums;
        return;
      }
      var n := Atoi(part[..i]);
      if n.None? {
        assert nums + [] == nums;
        return;
      }
      assert parts[k..][1..] == parts[k + 1..];
      nums := nums + [n.value];
    }
    assert nums + [] == nums;
  }

  /** nextVersion. */
  method NextVersion(v: string) returns (r: string)
    ensures r == Next(v)
  {
    hide Split, TrimSpace, Nums, FormatInt;
    var nums := ScanComponents(Split(TrimSpace(v), '.'));
    if |nums| == 0 {
      return "1.0.0";
    }
    while |nums| < 3
      invariant nums != [] && forall i: nat :: Component(nums, i) == Component(Scanned(v), i)
    {
      nums := nums + [0];
    }
    assert forall i: nat | i < 3 :: nums[i] == Component(Scanned(v), i);
    nums := nums[2 := Increment(nums[2])];
    return FormatInt(nums[0]) + "." + FormatInt(nums[1]) + "." + FormatInt(nums[2]);
  }

  // ----- what the patch bump promises -----

  predicate InRange(n: int) {
    0 <= n <= MAX_INT
  }

  lemma AtoiFormat(n: int)
    requires InRange(n)
    ensures Atoi(FormatInt(n)) == Some(n) && PartValue(FormatInt(n)) == Some(n)
  {
    FormatReads(n);
    assert Digits(Format(n)) && IsDigit(Format(n)[0]);
  }

  lemma FormatPlain(n: int, c: char)
    ensures n >= 0 && !IsDigit(c) ==> c !in FormatInt(n)
  {
    if n >= 0 {
      FormatReads(n);
    }
  }

  predicate Plain(s: string) {
    s != "" && IsDigit(s[0]) && IsDigit(s[|s| - 1]) && forall c | c in s :: IsDigit(c) || c == '.'
  }

  lemma {:induction false} UpToAll(s: string, stops: string)
    requires forall c | c in s :: c !in stops
    ensures UpTo(s, stops) == s
  {
    if s != "" {
      UpToAll(s[1..], stops);
    }
  }

  lemma {:induction false} UpToFirst(s: string, rest: string, stops: string)
    requires (forall c | c in s :: c !in stops) && rest != "" && rest[0] in stops
    ensures UpTo(s + rest, stops) == s
  {
    if s == "" {
      assert s + rest == rest;
    } else {
      assert (s + rest)[1..] == s[1..] + rest;
      UpToFirst(s[1..], rest, stops);
    }
  }

  lemma PlainTrims(s: string)
    ensures Plain(s) ==> TrimPrefixV(TrimSpace(s)) == s
  {
    if Plain(s) {
      TrimTrimmed(s);
    }
  }

  /** A rendered version parses back to its three numbers. */
  lemma RenderParses(a: int, b: int, c: int)
    requires InRange(a) && InRange(b) && InRange(c)
    ensures ParseCore(Render(a, b, c)) == Some((a, b, c))
  {
    hide TrimSpace, Split, UpTo, PartValue, Atoi;
    var s := Render(a, b, c);
    RenderPlain(a, b, c);
    PlainTrims(s);
    UpToAll(s, "-+");
    FormatPlain(a, '.');
    FormatPlain(b, '.');
    FormatPlain(c, '.');
    RenderSplits(FormatInt(a), FormatInt(b), FormatInt(c));
    AtoiFormat(a);
    AtoiFormat(b);
    AtoiFormat(c);
  }

  lemma RenderPlain(a: int, b: int, c: int)
    requires a >= 0 && b >= 0 && c >= 0
    ensures Plain(Render(a, b, c))
  {
    hide Format, Value;
    FormatReads(a);
    FormatReads(b);
    FormatReads(c);
  }

  lemma RenderSplits(x: string, y: string, z: string)
    requires '.' !in x && '.' !in y && '.' !in z
    ensures Split(x + "." + y + "." + z, '.') == [x, y, z]
  {
    hide Split;
    SplitPlain(z, '.');
    SplitFirst(y, z, '.');
    SplitFirst(x, y + ['.'] + z, '.');
    assert x + "." + y + "." + z == x + ['.'] + (y + ['.'] + z);
  }

  lemma {:induction false} DigitPrefixAll(p: string, rest: string)
    requires Digits(p) && (rest == "" || !IsDigit(rest[0]))
    ensures DigitPrefix(p + rest) == p
  {
    if p == "" {
      assert p + rest == rest;
    } else {
      assert (p + rest)[1..] == p[1..] + rest;
      DigitPrefixAll(p[1..], rest);
    }
  }

  lemma PartIsDigits(p: string)
    ensures PartValue(p).Some? && '-' !in p && '+' !in p ==> p != "" && Digits(p) && Atoi(p) == PartValue(p)
  {
  }

  lemma PartsLack(s: string, sep: char, p: string)
    requires p in Split(s, sep) && '-' !in s && '+' !in s
    ensures '-' !in p && '+' !in p
  {
    hide Split;
    SplitParts(s, sep, p, '-');
    SplitParts(s, sep, p, '+');
  }

  lemma NumberPart(p: string, x: string)
    requires PartValue(p).Some? && '-' !in p && '+' !in p && (x == "" || !IsDigit(x[0]))
    ensures LeadNumber(p + x) == PartValue(p) && LeadNumber(p) == PartValue(p)
  {
    hide Atoi, DigitPrefix;
    PartIsDigits(p);
    DigitPrefixAll(p, x);
    DigitPrefixAll(p, "");
    assert p + "" == p;
  }

  lemma {:induction false} NumsOfThree(parts: seq<string>)
    requires |parts| >= 3 && LeadNumber(parts[0]).Some? && LeadNumber(parts[1]).Some? && LeadNumber(parts[2]).Some?
    ensures |Nums(parts)| >= 3 && Nums(parts)[..3] == [LeadNumber(parts[0]).value, LeadNumber(parts[1]).value, LeadNumber(parts[2]).value]
  {
    hide LeadNumber;
    assert parts[1..][0] == parts[1] && parts[1..][1..][0] == parts[2];
    assert Nums(parts[1..]) == [LeadNumber(parts[1]).value] + Nums(parts[1..][1..]);
    assert Nums(parts[1..][1..]) == [LeadNumber(parts[2]).value] + Nums(parts[1..][1..][1..]);
  }

  predicate HasV(v: string) {
    var t := TrimSpace(v);
    t != "" && t[0] == 'v'
  }

  /** On a version without a leading "v" the scan sees the numbers the parser sees. */
  lemma ScanSeesCore(v: string)
    requires ParseCore(v).Some? && !HasV(v)
    ensures |Scanned(v)| >= 3
    ensures (Scanned(v)[0], Scanned(v)[1], Scanned(v)[2]) == ParseCore(v).value
  {
    hide Split, TrimSpace, UpTo, PartValue, LeadNumber, Nums;
    var t := TrimSpace(v);
    var u := UpTo(t, "-+");
    UpToMeans(t, "-+");
    var rest := t[|u|..];
    assert t == u + rest;
    assert '-' !in u && '+' !in u;
    var a, b := Split(u, '.'), Split(rest, '.');
    SplitAcross(u, rest, '.');
    SplitNonEmpty(rest, '.');
    FirstOfSplit(rest, '.');
    PartsLack(u, '.', a[0]);
    PartsLack(u, '.', a[1]);
    PartsLack(u, '.', a[2]);
    NumberPart(a[0], "");
    NumberPart(a[1], "");
    NumberPart(a[2], b[0]);
    var parts := Split(t, '.');
    assert parts[0] == a[0] && parts[1] == a[1] && parts[2] == a[2] + b[0];
    NumsOfThree(parts);
  }

  /** The bump itself: on a version below the largest patch and without a leading "v" it adds one to the
      patch, keeps the major and the minor and drops whatever follows them. */
  lemma NextBumpsPatch(v: string)
    requires ParseCore(v).Some? && !HasV(v) && ParseCore(v).value.2 < MAX_INT
    ensures var (a, b, c) := ParseCore(v).value;
            Next(v) == Render(a, b, c + 1) && ParseCore(Next(v)) == Some((a, b, c + 1))
  {
    hide ParseCore, Nums, TrimSpace, Split, Render, HasV;
    ScanSeesCore(v);
    var (a, b, c) := ParseCore(v).value;
    NumsInRange(Split(TrimSpace(v), '.'));
    assert Scanned(v)[0] == a && Scanned(v)[1] == b && Scanned(v)[2] == c;
    RenderParses(a, b, c + 1);
  }

  /** Missing components count as zero, and what is no number at all becomes 1.0.0. */
  lemma NextPads(a: int, b: int, v: string)
    requires InRange(a) && InRange(b)
    ensures Next(FormatInt(a)) == Render(a, 0, 1) && Next(FormatInt(a) + "." + FormatInt(b)) == Render(a, b, 1)
    ensures Trimmed(v) && (v == "" || !IsDigit(v[0])) ==> Next(v) == "1.0.0"
  {
    hide TrimSpace, Split, Format, Atoi, Render;
    var x, y := FormatInt(a), FormatInt(b);
    Component1(x, a);
    Component1(y, b);
    assert Plain(x) && Plain(x + "." + y) by {
      FormatReads(a);
      FormatReads(b);
    }
    TrimTrimmed(x);
    TrimTrimmed(x + "." + y);
    SplitPlain(x, '.');
    SplitPlain(y, '.');
    SplitFirst(x, y, '.');
    assert x + "." + y == x + ['.'] + y && [x] + [y] == [x, y];
    assert [x][1..] == [] && [x, y][1..] == [y] && [y][1..] == [];
    assert Nums([x]) == [a] && Nums([y]) == [b] && Nums([x, y]) == [a, b];
    if Trimmed(v) && (v == "" || !IsDigit(v[0])) {
      TrimTrimmed(v);
      SplitNonEmpty(v, '.');
      FirstOfSplit(v, '.');
    }
  }

  lemma Component1(x: string, n: int)
    requires InRange(n) && x == FormatInt(n)
    ensures LeadNumber(x) == Some(n) && '.' !in x
  {
    hide Atoi, Format;
    AtoiFormat(n);
    FormatPlain(n, '.');
    FormatReads(n);
    DigitPrefixAll(x, "");
    assert x + "" == x;
  }

  /** A rendered version with a prerelease and build data behind it keeps its numbers, and its prerelease is
      what stands between the dash and the plus. */
  lemma SuffixedParses(a: int, b: int, c: int, pre: string, build: string)
    requires InRange(a) && InRange(b) && InRange(c)
    requires '+' !in pre && Trimmed(pre) && pre != "" && (build == "" || Trimmed("+" + build))
    ensures var v := Render(a, b, c) + "-" + pre + if build == "" then "" else "+" + build;
            ParseCore(v) == Some((a, b, c)) && Prerelease(v) == pre
  {
    hide ParseCore, Prerelease, TrimSpace, Render;
    var s, tail := Render(a, b, c), if build == "" then "" else "+" + build;
    RenderPlain(a, b, c);
    RenderParses(a, b, c);
    SuffixedCore(s, pre, tail);
    SuffixedPrerelease(s, pre, tail);
  }

  lemma SuffixedCore(s: string, pre: string, tail: string)
    requires Plain(s) && Trimmed(pre) && pre != "" && Trimmed(tail)
    ensures ParseCore(s + "-" + pre + tail) == ParseCore(s)
  {
    hide TrimSpace, Split, CoreOf, UpTo;
    var rest := "-" + pre + tail;
    PlainTrims(s);
    SuffixedTrims(s, pre, tail);
    assert s + "-" + pre + tail == s + rest;
    UpToFirst(s, rest, "-+");
    UpToAll(s, "-+");
  }

  lemma SuffixedPrerelease(s: string, pre: string, tail: string)
    requires Plain(s) && Trimmed(pre) && pre != "" && '+' !in pre && Trimmed(tail) && (tail == "" || tail[0] == '+')
    ensures Prerelease(s + "-" + pre + tail) == pre
  {
    hide TrimSpace, UpTo, Cut;
    SuffixedTrims(s, pre, tail);
    WithoutBuild(s + "-" + pre, tail);
    assert '-' !in s;
    CutAtChar(s, "-", pre);
  }

  lemma WithoutBuild(w: string, tail: string)
    requires '+' !in w && (tail == "" || tail[0] == '+')
    ensures UpTo(w + tail, "+") == w
  {
    hide UpTo;
    if tail == "" {
      assert w + tail == w;
      UpToAll(w, "+");
    } else {
      UpToFirst(w, tail, "+");
    }
  }

  lemma SuffixedTrims(s: string, pre: string, tail: string)
    requires Plain(s) && Trimmed(pre) && pre != "" && Trimmed(tail)
    ensures var v := s + "-" + pre + tail; TrimPrefixV(TrimSpace(v)) == v
  {
    hide TrimSpace;
    var v := s + "-" + pre + tail;
    assert v[0] == s[0] && v[|v| - 1] == if tail == "" then pre[|pre| - 1] else tail[|tail| - 1];
    TrimTrimmed(v);
  }

  lemma {:induction false} NumsInRange(parts: seq<string>)
    ensures forall i :: 0 <= i < |Nums(parts)| ==> InRange(Nums(parts)[i])
  {
    if parts != [] && LeadNumber(parts[0]).Some? {
      NumsInRange(parts[1..]);
    }
  }

  /** A leading "v" stops the scan at once. */
  lemma VStopsScan(v: string)
    requires HasV(v)
    ensures Next(v) == "1.0.0"
  {
    hide TrimSpace;
    FirstOfSplit(TrimSpace(v), '.');
  }

  /** The scanned patch number, 0 when there is none. */
  function Patch(v: string): int {
    Component(Scanned(v), 2)
  }

  lemma OneParses()
    ensures ParseCore("1.0.0") == Some((1, 0, 0)) && Prerelease("1.0.0") == ""
  {
    hide Format, ParseCore;
    assert Format(1) == "1" && Format(0) == "0" by {
      FormatSmall(1);
      FormatSmall(0);
    }
    assert Render(1, 0, 0) == "1.0.0";
    RenderParses(1, 0, 0);
    PlainRelease("1.0.0");
  }

  lemma FormatSmall(n: nat)
    ensures n < 10 ==> Format(n) == [('0' as int + n) as char]
  {
  }

  lemma PlainRelease(s: string)
    requires Plain(s)
    ensures Prerelease(s) == ""
  {
    hide TrimSpace, Contains;
    PlainTrims(s);
    UpToAll(s, "+");
    NoDash(s);
    CutMissing(s, "-");
  }

  lemma NoDash(s: string)
    requires Plain(s)
    ensures !Contains(s, "-")
  {
    forall i | 0 <= i <= |s|
      ensures !("-" <= s[i..])
    {
      if i < |s| {
        assert s[i..][0] == s[i] && s[i] in s;
      }
    }
  }

  /** The cases in which "1.0.0", the answer for every v-prefixed string, is not behind it. */
  predicate BelowFirstRelease(v: string) {
    match ParseCore(v)
    case None => true
    case Some(core) =>
      CoreNewer((1, 0, 0), core) || (core == (1, 0, 0) && (Prerelease(v) != "" || Less(v, "1.0.0")))
  }

  /** The bumped version is newer than the one it was derived from: for every string without a
      leading "v", short, over-long, suffixed or no version at all; a v-prefixed one bumps to "1.0.0"
      and is overtaken only from below. (A patch at the largest int is NextAtOverflow.) */
  lemma NextIsNewer(v: string)
    requires Patch(v) < MAX_INT
    ensures Newer(Next(v), v) <==> !HasV(v) || BelowFirstRelease(v)
  {
    hide TrimSpace, Scanned, ParseCore, Prerelease, Less, Render;
    OneParses();
    ScannedInRange(v);
    if HasV(v) {
      VStopsScan(v);
      assert v != "1.0.0" by {
        TrimTrimmed("1.0.0");
      }
    } else if ParseCore(v).Some? {
      ScanSeesCore(v);
      var core := ParseCore(v).value;
      assert core == (Component(Scanned(v), 0), Component(Scanned(v), 1), Patch(v));
      RenderParses(core.0, core.1, core.2 + 1);
    } else if Scanned(v) != [] {
      RenderParses(Component(Scanned(v), 0), Component(Scanned(v), 1), Patch(v) + 1);
    }
  }

  lemma ScannedInRange(v: string)
    ensures forall i: nat :: InRange(Component(Scanned(v), i))
  {
    NumsInRange(Split(TrimSpace(v), '.'));
  }

  /** The bump does fail: "v2.0.0" bumps to "1.0.0". */
  lemma VersionTwoFallsBack()
    ensures var v := "v2.0.0"; HasV(v) && Next(v) == "1.0.0" && !Newer(Next(v), v)
  {
    hide TrimSpace, ParseCore, Scanned, Prerelease, Less;
    TwoParses();
    OneParses();
    TrimTrimmed("v2.0.0");
    VStopsScan("v2.0.0");
  }

  lemma TwoParses()
    ensures ParseCore("v2.0.0") == Some((2, 0, 0))
  {
    hide TrimSpace, UpTo, Split, CoreOf;
    FormatSmall(0);
    FormatSmall(2);
    assert Render(2, 0, 0) == "2.0.0" == "v2.0.0"[1..];
    RenderPlain(2, 0, 0);
    PlainTrims("2.0.0");
    TrimTrimmed("v2.0.0");
    RenderParses(2, 0, 0);
    TrimTrimmed("2.0.0");
  }

  /** At the largest patch number the increment wraps to a negative number, which no longer parses: the
      bump is then never newer than a version that parses, and newer than another string exactly when it
      sorts behind it. */
  lemma NextAtOverflow(v: string)
    requires Patch(v) == MAX_INT
    ensures ParseCore(Next(v)).None?
    ensures Newer(Next(v), v) <==> ParseCore(v).None? && Less(v, Next(v))
  {
    hide TrimSpace, Scanned, Split, UpTo, FormatInt, Less, ParseCore, Prerelease;
    ScannedInRange(v);
    LessIrreflexive(v);
    WrappedFails(Component(Scanned(v), 0), Component(Scanned(v), 1));
  }

  /** So 1.0.9223372036854775807, whose patch is the largest int, cannot be bumped. */
  lemma LargestPatchFallsBack()
    ensures var v := Render(1, 0, MAX_INT); Patch(v) == MAX_INT && !Newer(Next(v), v)
  {
    hide TrimSpace, Scanned, Less, ParseCore, Newer, Next;
    var v := Render(1, 0, MAX_INT);
    RenderParses(1, 0, MAX_INT);
    RenderPlain(1, 0, MAX_INT);
    PlainTrims(v);
    TrimTrimmed(v);
    ScanSeesCore(v);
    NextAtOverflow(v);
  }

  lemma WrappedFails(a: int, b: int)
    requires a >= 0 && b >= 0
    ensures ParseCore(Render(a, b, MIN_INT)).None?
  {
    hide Split, UpTo, TrimSpace, Format;
    var s := Render(a, b, MIN_INT);
    var head, tail := FormatInt(a) + "." + FormatInt(b) + ".", "-" + Format(-MIN_INT);
    assert s == head + tail;
    FormatPlain(a, '-');
    FormatPlain(a, '+');
    FormatPlain(b, '-');
    FormatPlain(b, '+');
    FormatPlain(a, '.');
    FormatPlain(b, '.');
    FormatReads(a);
    FormatReads(-MIN_INT);
    assert IsDigit(s[0]) && IsDigit(s[|s| - 1]);
    TrimTrimmed(s);
    UpToFirst(head, tail, "-+");
    RenderSplits(FormatInt(a), FormatInt(b), "");
    assert head == FormatInt(a) + "." + FormatInt(b) + "." + "";
  }
}
