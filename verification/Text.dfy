/** Character classes and small string functions shared by the text algorithms. */
module Text {

  /** The characters the regular expression class `\s` and `trim` know. */
  predicate IsSpace(c: char) {
    || c == ' ' || '\U{0009}' <= c <= '\U{000d}'
    || c == '\U{00a0}' || c == '\U{1680}' || '\U{2000}' <= c <= '\U{200a}'
    || c == '\U{2028}' || c == '\U{2029}' || c == '\U{202f}' || c == '\U{205f}'
    || c == '\U{3000}' || c == '\U{feff}'
  }

  /** The characters the regular expression `.` does not match. */
  predicate IsLineTerminator(c: char) {
    c == '\n' || c == '\r' || c == '\U{2028}' || c == '\U{2029}'
  }

  predicate IsDigit(c: char) {
    '0' <= c <= '9'
  }

  predicate IsLowerLetter(c: char) {
    'a' <= c <= 'z'
  }

  predicate IsUpperLetter(c: char) {
    'A' <= c <= 'Z'
  }

  predicate OneLine(s: string) {
    forall i | 0 <= i < |s| :: !IsLineTerminator(s[i])
  }

  lemma OneLineConcat(s: string, t: string)
    ensures OneLine(s + t) <==> OneLine(s) && OneLine(t)
  {
    assert forall i | 0 <= i < |s| :: (s + t)[i] == s[i];
    assert forall i | 0 <= i < |t| :: (s + t)[|s| + i] == t[i];
  }

  /** The character does not occur. */
  predicate Free(s: string, c: char) {
    forall i | 0 <= i < |s| :: s[i] != c
  }

  function TrimLeft(s: string): string {
    if s != "" && IsSpace(s[0]) then TrimLeft(s[1..]) else s
  }

  function TrimRight(s: string): string {
    if s != "" && IsSpace(s[|s| - 1]) then TrimRight(s[..|s| - 1]) else s
  }

  function Trim(s: string): string {
    TrimRight(TrimLeft(s))
  }

  /** No white space at either edge. */
  predicate Tight(s: string) {
    s == "" || (!IsSpace(s[0]) && !IsSpace(s[|s| - 1]))
  }

  lemma TrimTight(s: string)
    requires Tight(s)
    ensures Trim(s) == s
  {
  }

  lemma {:induction false} TrimLeftStarts(s: string)
    ensures TrimLeft(s) == "" || !IsSpace(TrimLeft(s)[0])
  {
    if s != "" && IsSpace(s[0]) {
      TrimLeftStarts(s[1..]);
    }
  }

  lemma {:induction false} TrimRightEnds(s: string)
    ensures TrimRight(s) <= s
    ensures TrimRight(s) == "" || !IsSpace(TrimRight(s)[|TrimRight(s)| - 1])
  {
    if s != "" && IsSpace(s[|s| - 1]) {
      TrimRightEnds(s[..|s| - 1]);
    }
  }

  lemma TrimIsTight(s: string)
    ensures Tight(Trim(s))
    ensures Trim(Trim(s)) == Trim(s)
  {
    TrimLeftStarts(s);
    TrimRightEnds(TrimLeft(s));
    TrimTight(Trim(s));
  }

  /** Trimming takes off white space at both ends, all of it and nothing else. */
  lemma TrimIs(s: string) returns (before: string, after: string)
    ensures s == before + Trim(s) + after && Tight(Trim(s))
    ensures (forall c | c in before :: IsSpace(c)) && (forall c | c in after :: IsSpace(c))
  {
    TrimIsTight(s);
    before := LeftOff(s);
    after := RightOff(TrimLeft(s));
  }

  lemma {:induction false} LeftOff(s: string) returns (off: string)
    ensures s == off + TrimLeft(s) && forall c | c in off :: IsSpace(c)
  {
    if s != "" && IsSpace(s[0]) {
      off := LeftOff(s[1..]);
      off := [s[0]] + off;
    } else {
      off := "";
    }
  }

  lemma {:induction false} RightOff(s: string) returns (off: string)
    ensures s == TrimRight(s) + off && forall c | c in off :: IsSpace(c)
  {
    if s != "" && IsSpace(s[|s| - 1]) {
      off := RightOff(s[..|s| - 1]);
      off := off + [s[|s| - 1]];
    } else {
      off := "";
    }
  }

  /** The characters that are trimmed, and the letters and digits, by their numbers. */
  lemma CharacterClasses(c: char)
    ensures IsSpace(c) <==> (c as int) in {9, 10, 11, 12, 13, 32, 0xa0, 0x1680, 0x2000, 0x2001, 0x2002, 0x2003, 0x2004, 0x2005,
      0x2006, 0x2007, 0x2008, 0x2009, 0x200a, 0x2028, 0x2029, 0x202f, 0x205f, 0x3000, 0xfeff}
    ensures IsLineTerminator(c) <==> (c as int) in {10, 13, 0x2028, 0x2029}
    ensures IsDigit(c) <==> c in "0123456789"
    ensures IsLowerLetter(c) <==> c in "abcdefghijklmnopqrstuvwxyz"
    ensures IsUpperLetter(c) <==> c in "ABCDEFGHIJKLMNOPQRSTUVWXYZ"
  {
  }

  /** Trimming keeps a slice. */
  lemma {:induction false} TrimIsSlice(s: string) returns (lo: nat, hi: nat)
    ensures lo <= hi <= |s| && Trim(s) == s[lo..hi]
  {
    lo := TrimLeftDrops(s);
    TrimRightEnds(s[lo..]);
    hi := lo + |Trim(s)|;
    assert s[lo..][..|Trim(s)|] == s[lo..hi];
  }

  lemma {:induction false} TrimLeftDrops(s: string) returns (lo: nat)
    ensures lo <= |s| && TrimLeft(s) == s[lo..]
  {
    if s != "" && IsSpace(s[0]) {
      lo := TrimLeftDrops(s[1..]);
      lo := lo + 1;
    } else {
      lo := 0;
    }
  }

  /** `split(separator)`: one piece more than there are separators. */
  function Split(s: string, separator: char): (pieces: seq<string>)
    ensures pieces != []
  {
    if s == "" then [""]
    else
      var rest := Split(s[1..], separator);
      if s[0] == separator then [""] + rest else [[s[0]] + rest[0]] + rest[1..]
  }

  lemma {:induction false} SplitFree(s: string, separator: char)
    requires Free(s, separator)
    ensures Split(s, separator) == [s]
  {
    if s != "" {
      SplitFree(s[1..], separator);
      assert [s[0]] + s[1..] == s;
    }
  }

  lemma {:induction false} SplitFirst(piece: string, separator: char, tail: string)
    requires Free(piece, separator)
    ensures Split(piece + [separator] + tail, separator) == [piece] + Split(tail, separator)
  {
    var s := piece + [separator] + tail;
    if piece == "" {
      assert s[0] == separator && s[1..] == tail;
    } else {
      assert s[1..] == piece[1..] + [separator] + tail;
      SplitFirst(piece[1..], separator, tail);
      assert [s[0]] + piece[1..] == piece;
    }
  }

  /** Pieces, each with a separator after it. */
  function Terminated(pieces: seq<string>, separator: char): string {
    if pieces == [] then "" else pieces[0] + [separator] + Terminated(pieces[1..], separator)
  }

  predicate AllFree(pieces: seq<string>, separator: char) {
    forall i | 0 <= i < |pieces| :: Free(pieces[i], separator)
  }

  lemma SplitStep(s: string, separator: char)
    requires s != ""
    ensures
      var rest := Split(s[1..], separator);
      Split(s, separator) == if s[0] == separator then [""] + rest else [[s[0]] + rest[0]] + rest[1..]
  {
  }

  lemma SplitNothing(separator: char)
    ensures Split("", separator) == [""] && Terminated([], separator) == ""
  {
  }

  lemma TerminatedFirst(c: char, piece: string, more: seq<string>, separator: char)
    ensures Terminated([piece] + more, separator) == piece + [separator] + Terminated(more, separator)
    ensures Terminated([[c] + piece] + more, separator) == [c] + Terminated([piece] + more, separator)
  {
    assert ([piece] + more)[1..] == more && ([[c] + piece] + more)[1..] == more;
  }

  /** Splitting loses nothing: the pieces are free of separators and, with those between them, they are the text. */
  lemma {:induction false} SplitJoins(s: string, separator: char)
    ensures
      var pieces := Split(s, separator);
      AllFree(pieces, separator) && s == Terminated(pieces[..|pieces| - 1], separator) + pieces[|pieces| - 1]
  {
    hide Split, Terminated;
    if s == "" {
      SplitNothing(separator);
    } else {
      SplitJoins(s[1..], separator);
      SplitStep(s, separator);
      var rest := Split(s[1..], separator);
      var n := |rest| - 1;
      assert s == [s[0]] + s[1..];
      if s[0] == separator {
        TerminatedFirst(s[0], "", rest[..n], separator);
        assert ([""] + rest)[..n + 1] == [""] + rest[..n];
      } else if n == 0 {
        SplitNothing(separator);
      } else {
        TerminatedFirst(s[0], rest[0], rest[1..n], separator);
        assert [rest[0]] + rest[1..n] == rest[..n];
        assert ([[s[0]] + rest[0]] + rest[1..])[..n] == [[s[0]] + rest[0]] + rest[1..n];
      }
    }
  }

  /** And no other pieces do that. */
  lemma {:induction false} SplitTerminated(pieces: seq<string>, last: string, separator: char)
    requires AllFree(pieces, separator) && Free(last, separator)
    ensures Split(Terminated(pieces, separator) + last, separator) == pieces + [last]
  {
    if pieces == [] {
      SplitFree(last, separator);
      assert Terminated(pieces, separator) + last == last;
    } else {
      hide Split, Free;
      var head, tail := pieces[0] + [separator], Terminated(pieces[1..], separator);
      assert Terminated(pieces, separator) == head + tail;
      assert head + tail + last == head + (tail + last);
      SplitTerminated(pieces[1..], last, separator);
      SplitFirst(pieces[0], separator, tail + last);
      assert [pieces[0]] + (pieces[1..] + [last]) == pieces + [last];
    }
  }

  function Take(s: string, n: nat): (r: string)
    ensures r <= s && |r| == if |s| < n then |s| else n
  {
    if |s| <= n then s else s[..n]
  }

  /** The last `n` characters: `slice(-n)` for positive n. */
  function Last(s: string, n: nat): (r: string)
    ensures |r| == if |s| < n then |s| else n
    ensures r == s[|s| - |r|..]
  {
    if |s| <= n then s else s[|s| - n..]
  }

  /** The length of a leading `[0-9]*`. */
  function DigitsLength(s: string): (n: nat)
    ensures n <= |s|
  {
    if s != "" && IsDigit(s[0]) then 1 + DigitsLength(s[1..]) else 0
  }

  /** It is the number of digits before the first character that is none. */
  lemma {:induction false} DigitsLengthIs(s: string, n: nat)
    requires n <= |s| && (forall i | 0 <= i < n :: IsDigit(s[i])) && (n < |s| ==> !IsDigit(s[n]))
    ensures DigitsLength(s) == n
  {
    if n > 0 {
      DigitsLengthIs(s[1..], n - 1);
    }
  }

  /** The value of a digit string. */
  function NumberOf(digits: string): nat {
    if digits == "" then 0
    else 10 * NumberOf(digits[..|digits| - 1]) + DigitValue(digits[|digits| - 1])
  }

  function DigitValue(c: char): nat {
    if IsDigit(c) then (c as int) - ('0' as int) else 0
  }

  /** Digits count in tens. */
  lemma DigitsMean(digits: string, c: char)
    ensures NumberOf("") == 0
    ensures NumberOf(digits + [c]) == 10 * NumberOf(digits) + DigitValue(c)
    ensures [DigitValue('0'), DigitValue('1'), DigitValue('2'), DigitValue('3'), DigitValue('4')] == [0, 1, 2, 3, 4]
    ensures [DigitValue('5'), DigitValue('6'), DigitValue('7'), DigitValue('8'), DigitValue('9')] == [5, 6, 7, 8, 9]
  {
    assert (digits + [c])[..|digits|] == digits;
  }

  function Digit(d: nat): char
    requires d < 10
  {
    '0' + d as char
  }

  /** Decimal notation, as a template literal prints an integer. */
  function Decimal(n: int): string
    decreases n < 0, if n < 0 then -n else n
  {
    if n < 0 then "-" + Decimal(-n)
    else if n < 10 then [Digit(n)]
    else Decimal(n / 10) + [Digit(n % 10)]
  }

  lemma {:induction false} DecimalDigits(n: nat)
    ensures Decimal(n) != "" && forall i | 0 <= i < |Decimal(n)| :: IsDigit(Decimal(n)[i])
  {
    if n >= 10 {
      DecimalDigits(n / 10);
    }
  }

  /** A printed number is read back. */
  lemma {:induction false} DecimalIsRead(n: nat)
    ensures NumberOf(Decimal(n)) == n
  {
    if n >= 10 {
      DecimalIsRead(n / 10);
    }
  }

  lemma DigitsBefore(digits: string, rest: string)
    requires forall i | 0 <= i < |digits| :: IsDigit(digits[i])
    requires rest == "" || !IsDigit(rest[0])
    ensures DigitsLength(digits + rest) == |digits|
  {
    DigitsLengthIs(digits + rest, |digits|);
  }

  lemma {:induction false} LeadingDigits(digits: string, rest: string)
    requires forall i | 0 <= i < |digits| :: IsDigit(digits[i])
    ensures DigitsLength(digits + rest) >= |digits|
  {
    if digits != "" {
      LeadingDigits(digits[1..], rest);
      assert (digits + rest)[1..] == digits[1..] + rest;
    }
  }

  function PowerOfTen(k: nat): nat {
    if k == 0 then 1 else 10 * PowerOfTen(k - 1)
  }

  lemma {:induction false} DecimalIsShort(n: nat, k: nat)
    requires n < PowerOfTen(k)
    ensures |Decimal(n)| <= if k == 0 then 1 else k
  {
    if n >= 10 {
      DecimalIsShort(n / 10, k - 1);
    }
  }

  lemma {:induction false} DecimalLength(m: nat, n: nat)
    requires m <= n
    ensures |Decimal(m)| <= |Decimal(n)|
  {
    if n >= 10 {
      if m >= 10 {
        DecimalLength(m / 10, n / 10);
      } else {
        DecimalDigits(n / 10);
      }
    }
  }

  lemma {:induction false} DecimalInjectiveNat(m: nat, n: nat)
    requires Decimal(m) == Decimal(n)
    ensures m == n
  {
    DecimalDigits(m / 10);
    DecimalDigits(n / 10);
    var s, t := Decimal(m), Decimal(n);
    assert s[|s| - 1] == Digit(m % 10) && t[|t| - 1] == Digit(n % 10);
    assert m % 10 == n % 10;
    if m >= 10 {
      assert s[..|s| - 1] == Decimal(m / 10);
      assert n >= 10;
      assert t[..|t| - 1] == Decimal(n / 10);
      DecimalInjectiveNat(m / 10, n / 10);
    }
  }

  lemma DecimalSign(n: int)
    ensures Decimal(n) != ""
    ensures Decimal(n)[0] == '-' <==> n < 0
  {
  }

  /** Different integers are printed differently. */
  lemma DecimalInjective(m: int, n: int)
    requires Decimal(m) == Decimal(n)
    ensures m == n
  {
    DecimalSign(m);
    DecimalSign(n);
    if m < 0 {
      assert Decimal(m)[1..] == Decimal(-m) && Decimal(n)[1..] == Decimal(-n);
      DecimalInjectiveNat(-m, -n);
    } else {
      DecimalInjectiveNat(m, n);
    }
  }
}
