/** Version strings and their order, against the precedence of section 11 of SemVer 2.0.0. */
module Versions {
  import opened Wrappers
  import opened Text

  datatype Version = Version(major: nat, minor: nat, patch: nat, prerelease: seq<string>)

  predicate IsIdentifierChar(c: char) {
    IsDigit(c) || IsLowerLetter(c) || IsUpperLetter(c) || c == '-'
  }

  function TailLength(s: string): (n: nat)
    ensures n <= |s|
  {
    if s != "" && (IsIdentifierChar(s[0]) || s[0] == '.') then 1 + TailLength(s[1..]) else 0
  }

  /** Nothing, or build metadata to the end. */
  predicate IsBuildTail(s: string) {
    s == "" || (s[0] == '+' && |s| > 1 && TailLength(s[1..]) == |s| - 1)
  }

  /** What follows the three numbers: the prerelease identifiers, if the tail is well formed. */
  function ParseTail(s: string): Option<seq<string>> {
    if s != "" && s[0] == '-' then
      var n := TailLength(s[1..]);
      if n > 0 && IsBuildTail(s[1 + n..]) then Some(Split(s[1..1 + n], '.')) else None
    else if IsBuildTail(s) then Some([])
    else None
  }

  datatype Leading = Leading(number: nat, rest: string)

  /** The number a text starts with, and what follows it. */
  function TakeNumber(s: string): Option<Leading> {
    var n := DigitsLength(s);
    if n == 0 then None else Some(Leading(NumberOf(s[..n]), s[n..]))
  }

  /** The same behind a dot. */
  function TakeDotNumber(s: string): Option<Leading> {
    if s != "" && s[0] == '.' then TakeNumber(s[1..]) else None
  }

  function ParseVersion(version: string): Option<Version> {
    var major := TakeNumber(if version != "" && version[0] == 'v' then version[1..] else version);
    if major.None? then None
    else
      var minor := TakeDotNumber(major.value.rest);
      if minor.None? then None
      else
        var patch := TakeDotNumber(minor.value.rest);
        if patch.None? then None
        else
          var tail := ParseTail(patch.value.rest);
          if tail.None? then None
          else Some(Version(major.value.number, minor.value.number, patch.value.number, tail.value))
  }

  // The order of the standard.

  function Sign(n: int): int {
    if n < 0 then -1 else if n > 0 then 1 else 0
  }

  predicate IsNumeric(id: string) {
    id != "" && DigitsLength(id) == |id|
  }

  /** Character by character, a proper prefix first. */
  function LexOrder(s: string, t: string): (o: int)
    ensures -1 <= o <= 1
  {
    if s == "" && t == "" then 0
    else if s == "" then -1
    else if t == "" then 1
    else if s[0] != t[0] then Sign((s[0] as int) - (t[0] as int))
    else LexOrder(s[1..], t[1..])
  }

  /** Numbers by value, before all other identifiers; those lexically. */
  function IdOrder(a: string, b: string): int {
    if IsNumeric(a) && IsNumeric(b) then Sign(NumberOf(a) - NumberOf(b))
    else if IsNumeric(a) then -1
    else if IsNumeric(b) then 1
    else LexOrder(a, b)
  }

  /** Identifier by identifier; if all are equal the longer list is the later one. */
  function IdsOrder(a: seq<string>, b: seq<string>): int {
    if a == [] && b == [] then 0
    else if a == [] then -1
    else if b == [] then 1
    else if IdOrder(a[0], b[0]) != 0 then IdOrder(a[0], b[0])
    else IdsOrder(a[1..], b[1..])
  }

  /** A release comes after all its prereleases. */
  function PrereleaseOrder(a: seq<string>, b: seq<string>): int {
    if a == [] && b == [] then 0
    else if a == [] then 1
    else if b == [] then -1
    else IdsOrder(a, b)
  }

  function Precedence(p: Version, q: Version): int {
    if p.major != q.major then Sign(p.major - q.major)
    else if p.minor != q.minor then Sign(p.minor - q.minor)
    else if p.patch != q.patch then Sign(p.patch - q.patch)
    else PrereleaseOrder(p.prerelease, q.prerelease)
  }

  // The program's comparison.

  /** Where two lists of identifiers first differ as texts, or the length of the shorter one. */
  function FirstDifference(a: seq<string>, b: seq<string>): (i: nat)
    ensures i <= |a| && i <= |b|
    ensures i < |a| && i < |b| ==> a[i] != b[i]
    ensures a[..i] == b[..i]
  {
    if a == [] || b == [] || a[0] != b[0] then 0 else 1 + FirstDifference(a[1..], b[1..])
  }

  /** What the first differing identifiers say; two texts of the same number say nothing. */
  function DecidedBy(a: seq<string>, b: seq<string>): int {
    var i := FirstDifference(a, b);
    if a == b then 0
    else if i == |a| then -1
    else if i == |b| then 1
    else IdOrder(a[i], b[i])
  }

  method LexLess(left: string, right: string) returns (less: bool)
    ensures less <==> LexOrder(left, right) < 0
  {
    var i := 0;
    assert left[0..] == left && right[0..] == right;
    while i < |left| && i < |right| && left[i] == right[i]
      invariant i <= |left| && i <= |right|
      invariant LexOrder(left[i..], right[i..]) == LexOrder(left, right)
    {
      assert left[i..][1..] == left[i + 1..] && right[i..][1..] == right[i + 1..];
      i := i + 1;
    }
    less := i < |right| && (i == |left| || left[i] < right[i]);
  }

  method ComparePrerelease(a: seq<string>, b: seq<string>) returns (diff: int)
    ensures Sign(diff) == if a == [] || b == [] then PrereleaseOrder(a, b) else DecidedBy(a, b)
  {
    if |a| == 0 && |b| == 0 { return 0; }
    if |a| == 0 { return 1; }
    if |b| == 0 { return -1; }
    var longer := if |a| < |b| then |b| else |a|;
    for i := 0 to longer
      invariant i <= |a| && i <= |b|
      invariant forall k | 0 <= k < i :: a[k] == b[k]
    {
      FirstDifferenceIs(a, b, i);
      if i == |a| { return -1; }
      if i == |b| { return 1; }
      var left, right := a[i], b[i];
      if left == right { continue; }
      if IsNumeric(left) && IsNumeric(right) {
        return NumberOf(left) - NumberOf(right);
      }
      if IsNumeric(left) { return -1; }
      if IsNumeric(right) { return 1; }
      LexZeroIffEqual(left, right);
      var less := LexLess(left, right);
      return if less then -1 else 1;
    }
    assert a == b;
    return 0;
  }

  lemma {:induction false} FirstDifferenceIs(a: seq<string>, b: seq<string>, i: nat)
    requires i <= |a| && i <= |b| && forall k | 0 <= k < i :: a[k] == b[k]
    ensures FirstDifference(a, b) >= i
    ensures i == |a| || i == |b| || a[i] != b[i] ==> FirstDifference(a, b) == i
  {
  }

  lemma {:induction false} LexZeroIffEqual(s: string, t: string)
    ensures LexOrder(s, t) == 0 <==> s == t
  {
    if s != "" && t != "" && s[0] == t[0] {
      LexZeroIffEqual(s[1..], t[1..]);
      assert s == [s[0]] + s[1..] && t == [t[0]] + t[1..];
    }
  }

  method CompareVersions(a: string, b: string) returns (diff: Option<int>)
    ensures diff.Some? <==> ParseVersion(a).Some? && ParseVersion(b).Some?
    ensures diff.Some? ==>
      var p, q := ParseVersion(a).value, ParseVersion(b).value;
      Sign(diff.value) == CodeOrder(p, q)
  {
    hide ParseVersion, DecidedBy, PrereleaseOrder;
    var left, right := ParseVersion(a), ParseVersion(b);
    if left.None? || right.None? {
      return None;
    }
    var p: seq<int> := [left.value.major, left.value.minor, left.value.patch];
    var q: seq<int> := [right.value.major, right.value.minor, right.value.patch];
    for key := 0 to 3
      invariant forall k | 0 <= k < key :: p[k] == q[k]
    {
      assert (key > 0 ==> p[0] == q[0]) && (key > 1 ==> p[1] == q[1]);
      var d := p[key] - q[key];
      if d != 0 {
        return Some(d);
      }
    }
    assert p[0] == q[0] && p[1] == q[1] && p[2] == q[2];
    var d := ComparePrerelease(left.value.prerelease, right.value.prerelease);
    diff := Some(d);
  }

  /** The program's order on parsed versions. */
  function CodeOrder(p: Version, q: Version): int {
    if p.major != q.major then Sign(p.major - q.major)
    else if p.minor != q.minor then Sign(p.minor - q.minor)
    else if p.patch != q.patch then Sign(p.patch - q.patch)
    else if p.prerelease == [] || q.prerelease == [] then PrereleaseOrder(p.prerelease, q.prerelease)
    else DecidedBy(p.prerelease, q.prerelease)
  }

  method IsNewerVersion(version: string, current: Option<string>) returns (newer: bool)
    ensures newer <==> Newer(version, current)
  {
    if current.None? || current.value == "" {
      return false;
    }
    var diff := CompareVersions(version, current.value);
    newer := diff.Some? && diff.value > 0;
  }

  predicate Newer(version: string, current: Option<string>) {
    && current.Some?
    && ParseVersion(version).Some?
    && ParseVersion(current.value).Some?
    && CodeOrder(ParseVersion(version).value, ParseVersion(current.value).value) > 0
  }

  // Where the two orders agree.

  /** Section 9: numeric identifiers have no leading zeros. */
  predicate NoLeadingZero(id: string) {
    IsNumeric(id) && |id| > 1 ==> id[0] != '0'
  }

  predicate Conforms(p: Version) {
    forall i | 0 <= i < |p.prerelease| :: NoLeadingZero(p.prerelease[i])
  }

  lemma {:induction false} DigitsAreDigits(s: string)
    requires DigitsLength(s) == |s|
    ensures forall i | 0 <= i < |s| :: IsDigit(s[i])
  {
    if s != "" {
      DigitsAreDigits(s[1..]);
      assert forall i | 0 < i < |s| :: s[i] == s[1..][i - 1];
    }
  }

  lemma {:induction false} ValuePositive(s: string)
    requires s != "" && (forall i | 0 <= i < |s| :: IsDigit(s[i])) && s[0] != '0'
    ensures NumberOf(s) > 0
  {
    if |s| > 1 {
      ValuePositive(s[..|s| - 1]);
    } else {
      assert s[..0] == "";
    }
  }

  lemma {:induction false} ValueInjective(s: string, t: string)
    requires s != "" && t != "" && (forall i | 0 <= i < |s| :: IsDigit(s[i])) && (forall i | 0 <= i < |t| :: IsDigit(t[i]))
    requires (|s| > 1 ==> s[0] != '0') && (|t| > 1 ==> t[0] != '0')
    requires NumberOf(s) == NumberOf(t)
    ensures s == t
  {
    var s', t' := s[..|s| - 1], t[..|t| - 1];
    var c, d := s[|s| - 1], t[|t| - 1];
    assert s == s' + [c] && t == t' + [d];
    assert DigitValue(c) < 10 && DigitValue(d) < 10;
    assert NumberOf(s') == NumberOf(t') && DigitValue(c) == DigitValue(d);
    assert c == d;
    if s' != "" {
      ValuePositive(s');
    }
    if t' != "" {
      ValuePositive(t');
    }
    if s' != "" {
      assert t' != "";
      ValueInjective(s', t');
    } else {
      assert t' == "";
    }
  }

  /** Without leading zeros, identifiers that rank the same are the same. */
  lemma IdZeroIffEqual(a: string, b: string)
    requires NoLeadingZero(a) && NoLeadingZero(b)
    ensures IdOrder(a, b) == 0 <==> a == b
  {
    LexZeroIffEqual(a, b);
    if IsNumeric(a) && IsNumeric(b) && NumberOf(a) == NumberOf(b) {
      DigitsAreDigits(a);
      DigitsAreDigits(b);
      ValueInjective(a, b);
    }
  }

  /** The standard's order goes on where two texts of one number differ; the program's stops there. */
  lemma {:induction false} IdsOrderAtDifference(a: seq<string>, b: seq<string>)
    ensures
      var i := FirstDifference(a, b);
      IdsOrder(a, b) ==
        if i < |a| && i < |b| && IdOrder(a[i], b[i]) == 0 then IdsOrder(a[i + 1..], b[i + 1..]) else DecidedBy(a, b)
  {
    if a != [] && b != [] && a[0] == b[0] {
      IdsOrderAtDifference(a[1..], b[1..]);
      IdOrderReflexive(a[0]);
      var i := FirstDifference(a[1..], b[1..]);
      assert a == [a[0]] + a[1..] && b == [b[0]] + b[1..];
      assert FirstDifference(a, b) == i + 1;
      assert i < |a[1..]| ==> a[1..][i + 1..] == a[i + 2..];
      assert i < |b[1..]| ==> b[1..][i + 1..] == b[i + 2..];
    }
  }

  lemma IdOrderReflexive(id: string)
    ensures IdOrder(id, id) == 0
  {
    LexZeroIffEqual(id, id);
  }

  /** Two different texts of one number meet before anything else differs, and something after them differs. */
  predicate MaskedByEqualNumbers(a: seq<string>, b: seq<string>) {
    var i := FirstDifference(a, b);
    i < |a| && i < |b| && IdOrder(a[i], b[i]) == 0 && IdsOrder(a[i + 1..], b[i + 1..]) != 0
  }

  /** The program's comparison is the standard's precedence for exactly the pairs that are not masked. */
  lemma ComparisonIsPrecedenceIff(p: Version, q: Version)
    ensures CodeOrder(p, q) == Precedence(p, q)
            <==> !(p.major == q.major && p.minor == q.minor && p.patch == q.patch
                   && p.prerelease != [] && q.prerelease != [] && MaskedByEqualNumbers(p.prerelease, q.prerelease))
  {
    IdsOrderAtDifference(p.prerelease, q.prerelease);
  }

  /** Versions that follow section 9 are never masked. */
  lemma ComparisonIsPrecedence(p: Version, q: Version)
    requires Conforms(p) && Conforms(q)
    ensures CodeOrder(p, q) == Precedence(p, q)
  {
    ComparisonIsPrecedenceIff(p, q);
    var a, b := p.prerelease, q.prerelease;
    var i := FirstDifference(a, b);
    if i < |a| && i < |b| {
      IdZeroIffEqual(a[i], b[i]);
    }
  }

  /** A leading zero can mask a later difference. */
  lemma LeadingZeroMasks()
    ensures
      var p, q := Version(1, 0, 0, ["01", "a"]), Version(1, 0, 0, ["1", "b"]);
      CodeOrder(p, q) == 0 && Precedence(p, q) < 0
  {
  }

  // The standard's precedence is an order.

  lemma {:induction false} LexOrderReverses(s: string, t: string)
    ensures LexOrder(s, t) == -LexOrder(t, s)
  {
    if s != "" && t != "" && s[0] == t[0] {
      LexOrderReverses(s[1..], t[1..]);
    }
  }

  lemma {:induction false} LexOrderTransitive(s: string, t: string, u: string)
    requires LexOrder(s, t) <= 0 && LexOrder(t, u) <= 0
    ensures LexOrder(s, u) <= 0
    ensures LexOrder(s, u) == 0 ==> LexOrder(s, t) == 0 && LexOrder(t, u) == 0
  {
    if s != "" && t != "" && u != "" && s[0] == t[0] && t[0] == u[0] {
      LexOrderTransitive(s[1..], t[1..], u[1..]);
    }
  }

  lemma IdOrderReverses(a: string, b: string)
    ensures IdOrder(a, b) == -IdOrder(b, a)
  {
    LexOrderReverses(a, b);
  }

  lemma IdOrderTransitive(a: string, b: string, c: string)
    requires IdOrder(a, b) <= 0 && IdOrder(b, c) <= 0
    ensures IdOrder(a, c) <= 0
    ensures IdOrder(a, c) == 0 ==> IdOrder(a, b) == 0 && IdOrder(b, c) == 0
  {
    if !IsNumeric(a) && !IsNumeric(b) && !IsNumeric(c) {
      LexOrderTransitive(a, b, c);
    }
  }

  lemma {:induction false} IdsOrderReverses(a: seq<string>, b: seq<string>)
    ensures IdsOrder(a, b) == -IdsOrder(b, a)
  {
    if a != [] && b != [] {
      IdOrderReverses(a[0], b[0]);
      IdsOrderReverses(a[1..], b[1..]);
    }
  }

  lemma {:induction false} IdsOrderTransitive(a: seq<string>, b: seq<string>, c: seq<string>)
    requires IdsOrder(a, b) <= 0 && IdsOrder(b, c) <= 0
    ensures IdsOrder(a, c) <= 0
    ensures IdsOrder(a, c) == 0 ==> IdsOrder(a, b) == 0 && IdsOrder(b, c) == 0
  {
    if a != [] && b != [] && c != [] {
      IdOrderTransitive(a[0], b[0], c[0]);
      IdOrderReverses(a[0], b[0]);
      IdOrderReverses(b[0], c[0]);
      if IdOrder(a[0], b[0]) == 0 && IdOrder(b[0], c[0]) == 0 {
        IdOrderTransitive(c[0], b[0], a[0]);
        IdOrderReverses(a[0], c[0]);
        IdsOrderTransitive(a[1..], b[1..], c[1..]);
      }
    }
  }

  lemma {:induction false} IdsZeroIffEqual(a: seq<string>, b: seq<string>)
    requires forall i | 0 <= i < |a| :: NoLeadingZero(a[i])
    requires forall i | 0 <= i < |b| :: NoLeadingZero(b[i])
    ensures IdsOrder(a, b) == 0 <==> a == b
  {
    if a != [] && b != [] {
      IdZeroIffEqual(a[0], b[0]);
      IdsZeroIffEqual(a[1..], b[1..]);
      assert a == [a[0]] + a[1..] && b == [b[0]] + b[1..];
    }
  }

  /** A total order on conforming versions, build metadata apart. */
  lemma PrecedenceReverses(p: Version, q: Version)
    ensures Precedence(p, q) == -Precedence(q, p)
  {
    IdsOrderReverses(p.prerelease, q.prerelease);
  }

  lemma PrecedenceTransitive(p: Version, q: Version, r: Version)
    requires Precedence(p, q) <= 0 && Precedence(q, r) <= 0
    ensures Precedence(p, r) <= 0
    ensures Precedence(p, r) == 0 ==> Precedence(p, q) == 0 && Precedence(q, r) == 0
  {
    if p.prerelease != [] && q.prerelease != [] && r.prerelease != []
       && IdsOrder(p.prerelease, q.prerelease) <= 0 && IdsOrder(q.prerelease, r.prerelease) <= 0 {
      IdsOrderTransitive(p.prerelease, q.prerelease, r.prerelease);
    }
  }

  lemma PrecedenceZeroIffEqual(p: Version, q: Version)
    requires Conforms(p) && Conforms(q)
    ensures Precedence(p, q) == 0 <==> p == q
  {
    IdsZeroIffEqual(p.prerelease, q.prerelease);
  }

  predicate ConformingText(version: string) {
    ParseVersion(version).Some? ==> Conforms(ParseVersion(version).value)
  }

  /** `isNewerVersion` is a strict order on conforming texts: nothing is newer than itself, two texts are not
      newer than each other, newer-than passes along, and texts of different versions are comparable. */
  lemma NewerIsStrictOrder(a: string, b: string, c: string)
    requires ConformingText(a) && ConformingText(b) && ConformingText(c)
    ensures !Newer(a, Some(a))
    ensures Newer(a, Some(b)) ==> !Newer(b, Some(a))
    ensures Newer(a, Some(b)) && Newer(b, Some(c)) ==> Newer(a, Some(c))
    ensures ParseVersion(a).Some? && ParseVersion(b).Some? && ParseVersion(a) != ParseVersion(b) ==>
      Newer(a, Some(b)) || Newer(b, Some(a))
  {
    var x, y, z := ParseVersion(a), ParseVersion(b), ParseVersion(c);
    if x.Some? {
      ComparisonIsPrecedence(x.value, x.value);
      PrecedenceReverses(x.value, x.value);
    }
    if x.Some? && y.Some? {
      ComparisonIsPrecedence(x.value, y.value);
      ComparisonIsPrecedence(y.value, x.value);
      PrecedenceReverses(x.value, y.value);
      PrecedenceZeroIffEqual(x.value, y.value);
    }
    if x.Some? && y.Some? && z.Some? {
      ComparisonIsPrecedence(y.value, z.value);
      ComparisonIsPrecedence(x.value, z.value);
      PrecedenceReverses(y.value, z.value);
      PrecedenceReverses(x.value, z.value);
      if Precedence(x.value, y.value) > 0 && Precedence(y.value, z.value) > 0 {
        PrecedenceTransitive(z.value, y.value, x.value);
      }
    }
  }
  // What is read, and what the order is, said of the texts.

  predicate Digits(s: string) {
    s != "" && forall i | 0 <= i < |s| :: IsDigit(s[i])
  }

  /** Dots, letters, digits and hyphens, at least one. */
  predicate Identifiers(s: string) {
    s != "" && forall i | 0 <= i < |s| ::
      s[i] == '.' || s[i] == '-' || IsDigit(s[i]) || IsLowerLetter(s[i]) || IsUpperLetter(s[i])
  }

  /** What may stand behind the three numbers: a prerelease after a hyphen, build metadata after a plus sign. */
  function Tail(prerelease: Option<string>, build: Option<string>): string {
    (if prerelease.Some? then "-" + prerelease.value else "") + if build.Some? then "+" + build.value else ""
  }

  predicate WellFormedTail(prerelease: Option<string>, build: Option<string>) {
    (prerelease.Some? ==> Identifiers(prerelease.value)) && (build.Some? ==> Identifiers(build.value))
  }

  lemma {:induction false} TailLengthIs(s: string, rest: string)
    requires s == "" || Identifiers(s)
    requires rest == "" || rest[0] == '+'
    ensures TailLength(s + rest) == |s|
  {
    if s == "" {
      assert s + rest == rest;
    } else {
      assert (s + rest)[1..] == s[1..] + rest;
      TailLengthIs(s[1..], rest);
    }
  }

  lemma BuildIsRead(build: Option<string>)
    requires build.Some? ==> Identifiers(build.value)
    ensures IsBuildTail(if build.Some? then "+" + build.value else "")
  {
    if build.Some? {
      hide Identifiers, TailLength;
      TailLengthIs(build.value, "");
      assert build.value + "" == build.value && ("+" + build.value)[1..] == build.value;
      NotEmpty(build.value);
    }
  }

  lemma NotEmpty(s: string)
    requires Identifiers(s)
    ensures s != ""
  {
  }

  lemma TailIsRead(prerelease: Option<string>, build: Option<string>)
    requires WellFormedTail(prerelease, build)
    ensures ParseTail(Tail(prerelease, build)) == Some(if prerelease.Some? then Split(prerelease.value, '.') else [])
  {
    hide Identifiers, TailLength, IsBuildTail, Split;
    BuildIsRead(build);
    var behind := if build.Some? then "+" + build.value else "";
    if prerelease.Some? {
      var s, ids := Tail(prerelease, build), prerelease.value;
      TailLengthIs(ids, behind);
      NotEmpty(ids);
      assert s[1..] == ids + behind;
      assert s[1..1 + |ids|] == ids && s[1 + |ids|..] == behind;
    } else {
      assert Tail(prerelease, build) == behind;
    }
  }

  /** A version with an optional `v`, three numbers, and what may stand behind them. */
  lemma VersionIsRead(v: bool, major: string, minor: string, patch: string, prerelease: Option<string>, build: Option<string>)
    requires Digits(major) && Digits(minor) && Digits(patch) && WellFormedTail(prerelease, build)
    ensures ParseVersion((if v then "v" else "") + (major + "." + (minor + "." + (patch + Tail(prerelease, build)))))
      == Some(Version(NumberOf(major), NumberOf(minor), NumberOf(patch),
                      if prerelease.Some? then Split(prerelease.value, '.') else []))
  {
    hide Tail, WellFormedTail, ParseTail, NumberOf, TakeNumber, IsDigit;
    TailIsRead(prerelease, build);
    TailStarts(prerelease, build);
    var tail := Tail(prerelease, build);
    var u := patch + tail;
    var t := minor + "." + u;
    var s := major + "." + t;
    assert s == major + ("." + t) && t == minor + ("." + u);
    DotIsNoDigit();
    NumberIsRead(patch, tail);
    NumberIsRead(minor, "." + u);
    NumberIsRead(major, "." + t);
    assert ("." + t)[1..] == t && ("." + u)[1..] == u;
    assert s[0] == major[0] && major[0] != 'v' by { VIsNoDigit(major); }
    assert ("v" + s)[1..] == s && "" + s == s;
  }

  lemma VIsNoDigit(s: string)
    requires Digits(s)
    ensures s[0] != 'v'
  {
  }

  lemma TailStarts(prerelease: Option<string>, build: Option<string>)
    ensures var tail := Tail(prerelease, build); tail == "" || !IsDigit(tail[0])
  {
  }

  lemma NumberIsRead(digits: string, rest: string)
    requires Digits(digits) && (rest == "" || !IsDigit(rest[0]))
    ensures TakeNumber(digits + rest) == Some(Leading(NumberOf(digits), rest))
  {
    hide DigitsLength, NumberOf;
    DigitsBefore(digits, rest);
    assert (digits + rest)[..|digits|] == digits && (digits + rest)[|digits|..] == rest;
  }

  lemma DotIsNoDigit()
    ensures !IsDigit('.')
  {
  }

  lemma {:induction false} TailLengthTells(s: string)
    ensures
      var n := TailLength(s);
      (n > 0 ==> Identifiers(s[..n])) && (n < |s| ==> !IsIdentifierChar(s[n]) && s[n] != '.')
  {
    if s != "" && (IsIdentifierChar(s[0]) || s[0] == '.') {
      TailLengthTells(s[1..]);
      var n := TailLength(s);
      forall i | 0 <= i < n ensures s[..n][i] == '.' || IsIdentifierChar(s[..n][i]) {
        if i > 0 {
          assert s[..n][i] == s[1..][..n - 1][i - 1];
        }
      }
    }
  }

  lemma NumberTells(s: string) returns (digits: string)
    requires TakeNumber(s).Some?
    ensures Digits(digits) && s == digits + TakeNumber(s).value.rest
  {
    var n := DigitsLength(s);
    digits := s[..n];
    DigitsLengthTells(s);
    hide DigitsLength;
    assert s == s[..n] + s[n..];
  }

  lemma {:induction false} DigitsLengthTells(s: string)
    ensures DigitsLength(s) > 0 ==> Digits(s[..DigitsLength(s)])
  {
    if s != "" && IsDigit(s[0]) {
      DigitsLengthTells(s[1..]);
      var n := DigitsLength(s);
      forall i | 0 <= i < n ensures IsDigit(s[..n][i]) {
        if i > 0 {
          assert s[..n][i] == s[1..][..n - 1][i - 1];
        }
      }
    }
  }

  lemma TailIsWellFormed(s: string) returns (prerelease: Option<string>, build: Option<string>)
    requires ParseTail(s).Some?
    ensures WellFormedTail(prerelease, build) && s == Tail(prerelease, build)
  {
    prerelease, build := None, None;
    var rest := s;
    if s != "" && s[0] == '-' {
      var n := TailLength(s[1..]);
      TailLengthTells(s[1..]);
      prerelease, rest := Some(s[1..1 + n]), s[1 + n..];
      assert s[1..][..n] == s[1..1 + n];
      assert s == "-" + s[1..1 + n] + rest;
    }
    if rest != "" {
      TailLengthTells(rest[1..]);
      build := Some(rest[1..]);
      assert rest[1..][..|rest| - 1] == rest[1..];
      assert rest == "+" + rest[1..];
    }
  }

  /** And nothing else is a version. */
  lemma ParsedIsVersion(version: string)
    returns (v: bool, major: string, minor: string, patch: string, prerelease: Option<string>, build: Option<string>)
    requires ParseVersion(version).Some?
    ensures Digits(major) && Digits(minor) && Digits(patch) && WellFormedTail(prerelease, build)
    ensures version == (if v then "v" else "") + (major + "." + (minor + "." + (patch + Tail(prerelease, build))))
  {
    hide TakeNumber, ParseTail, Tail, WellFormedTail;
    v := version != "" && version[0] == 'v';
    var s := if v then version[1..] else version;
    major := NumberTells(s);
    var t := TakeNumber(s).value.rest;
    minor := NumberTells(t[1..]);
    var u := TakeNumber(t[1..]).value.rest;
    patch := NumberTells(u[1..]);
    var tail := TakeNumber(u[1..]).value.rest;
    prerelease, build := TailIsWellFormed(tail);
    assert u == "." + (patch + tail) && t == "." + (minor + u);
    assert s == major + "." + (minor + "." + (patch + tail));
    assert version == (if v then "v" else "") + s;
  }

  /** `x` stands before `y` in the order of characters: where they first differ, or because `y` goes on. */
  predicate Before(x: string, y: string, n: nat) {
    && n <= |x| && n < |y| && x[..n] == y[..n] && (n < |x| ==> x[n] < y[n])
  }

  lemma {:induction false} LexFollows(x: string, y: string, n: nat)
    requires Before(x, y, n)
    ensures LexOrder(x, y) < 0
  {
    if n > 0 {
      assert x[0] == x[..n][0] == y[..n][0] == y[0];
      assert x[1..][..n - 1] == x[..n][1..] && y[1..][..n - 1] == y[..n][1..];
      LexFollows(x[1..], y[1..], n - 1);
    }
  }

  lemma DigitsAreNumeric(s: string)
    ensures IsNumeric(s) <==> Digits(s)
  {
    if Digits(s) {
      DigitsLengthIs(s, |s|);
    } else if IsNumeric(s) {
      DigitsAreDigits(s);
    }
  }

  /** One identifier is lower than another: as a number, as a number before a text, or in the order of characters. */
  predicate Lower(x: string, y: string, n: nat) {
    if Digits(x) && Digits(y) then NumberOf(x) < NumberOf(y)
    else if Digits(x) || Digits(y) then Digits(x)
    else Before(x, y, n)
  }

  /** The rules of section 11: major, minor and patch number in this order; a prerelease before its release; identifiers
      from left to right; and the shorter list first if the longer one only goes on. */
  lemma PrecedenceRules(p: Version, q: Version, n: nat, k: nat)
    ensures p.major < q.major ==> Precedence(p, q) < 0
    ensures p.major == q.major && p.minor < q.minor ==> Precedence(p, q) < 0
    ensures p.major == q.major && p.minor == q.minor && p.patch < q.patch ==> Precedence(p, q) < 0
    ensures p.major == q.major && p.minor == q.minor && p.patch == q.patch ==>
      var a, b := p.prerelease, q.prerelease;
      && (a != [] && b == [] ==> Precedence(p, q) < 0)
      && (a != [] && n <= |a| && n <= |b| && a[..n] == b[..n] ==>
            && (n == |a| && n < |b| ==> Precedence(p, q) < 0)
            && (n < |a| && n < |b| && Lower(a[n], b[n], k) ==> Precedence(p, q) < 0))
  {
    var a, b := p.prerelease, q.prerelease;
    if a != [] && n <= |a| && n <= |b| && a[..n] == b[..n] && b != [] {
      if n < |a| && n < |b| && Lower(a[n], b[n], k) {
        LowerIsFirst(a[n], b[n], k);
        IdsFollow(a, b, n);
      } else if n == |a| && n < |b| {
        IdsFollow(a, b, n);
      }
    }
  }

  lemma LowerIsFirst(x: string, y: string, k: nat)
    requires Lower(x, y, k)
    ensures IdOrder(x, y) < 0
  {
    DigitsAreNumeric(x);
    DigitsAreNumeric(y);
    if !Digits(x) && !Digits(y) {
      LexFollows(x, y, k);
    }
  }

  lemma IdIsItself(x: string)
    ensures IdOrder(x, x) == 0
  {
    LexZeroIffEqual(x, x);
  }

  lemma {:induction false} IdsFollow(a: seq<string>, b: seq<string>, n: nat)
    requires n <= |a| && n < |b| && a[..n] == b[..n] && (n < |a| ==> IdOrder(a[n], b[n]) < 0)
    ensures IdsOrder(a, b) < 0
  {
    if n > 0 {
      assert a[0] == a[..n][0] == b[..n][0] == b[0];
      IdIsItself(a[0]);
      assert a[1..][..n - 1] == a[..n][1..] && b[1..][..n - 1] == b[..n][1..];
      hide IdOrder;
      IdsFollow(a[1..], b[1..], n - 1);
    }
  }

  /** For conforming texts, newer means above in the precedence of the standard. */
  lemma NewerIsPrecedence(version: string, current: string)
    requires ConformingText(version) && ConformingText(current)
    ensures Newer(version, Some(current)) <==>
      && ParseVersion(version).Some? && ParseVersion(current).Some?
      && Precedence(ParseVersion(version).value, ParseVersion(current).value) > 0
    ensures !Newer(version, None)
  {
    if ParseVersion(version).Some? && ParseVersion(current).Some? {
      ComparisonIsPrecedence(ParseVersion(version).value, ParseVersion(current).value);
    }
  }
}
