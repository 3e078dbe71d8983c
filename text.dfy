/** The few `java.lang.String` operations the value objects rely on:
    ASCII character classes and case mapping, `trim`, `split` on a single
    literal character, and decimal rendering of integers. */
module Text {

  predicate IsLetter(c: char) { 'a' <= c <= 'z' || 'A' <= c <= 'Z' }

  predicate IsDigit(c: char) { '0' <= c <= '9' }

  predicate AllDigits(s: string) { forall i :: 0 <= i < |s| ==> IsDigit(s[i]) }

  /** `Character.toUpperCase` restricted to ASCII. */
  function UpperChar(c: char): char
  {
    if 'a' <= c <= 'z' then (c as int - 32) as char else c
  }

  /** `Character.toLowerCase` restricted to ASCII. */
  function LowerChar(c: char): char
  {
    if 'A' <= c <= 'Z' then (c as int + 32) as char else c
  }

  /** `String.toUpperCase`, character by character. */
  function Upper(s: string): (r: string)
    ensures |r| == |s|
    ensures forall i :: 0 <= i < |s| ==> r[i] == UpperChar(s[i])
  {
    seq(|s|, i requires 0 <= i < |s| => UpperChar(s[i]))
  }

  /** `String.toLowerCase`, character by character. */
  function Lower(s: string): (r: string)
    ensures |r| == |s|
    ensures forall i :: 0 <= i < |s| ==> r[i] == LowerChar(s[i])
  {
    seq(|s|, i requires 0 <= i < |s| => LowerChar(s[i]))
  }

  lemma UpperConcat(a: string, b: string)
    ensures Upper(a + b) == Upper(a) + Upper(b)
  {
    assert forall i :: 0 <= i < |a + b| ==> Upper(a + b)[i] == (Upper(a) + Upper(b))[i];
  }

  // ---------------------------------------------------------------- trim

  /** `String.trim` removes every character whose code is at most U+0020. */
  predicate IsBlankChar(c: char) { c <= ' ' }

  function TrimStart(s: string): string
  {
    if |s| > 0 && IsBlankChar(s[0]) then TrimStart(s[1..]) else s
  }

  function TrimEnd(s: string): string
  {
    if |s| > 0 && IsBlankChar(s[|s| - 1]) then TrimEnd(s[..|s| - 1]) else s
  }

  function Trim(s: string): string
  {
    TrimEnd(TrimStart(s))
  }

  /** A string is trimmed when it neither starts nor ends with a blank character. */
  predicate IsTrimmed(s: string)
  {
    s == [] || (!IsBlankChar(s[0]) && !IsBlankChar(s[|s| - 1]))
  }

  lemma {:induction false} TrimStartShape(s: string)
    ensures TrimStart(s) == [] || !IsBlankChar(TrimStart(s)[0])
    ensures TrimStart(s) == [] ==> forall i :: 0 <= i < |s| ==> IsBlankChar(s[i])
    ensures |TrimStart(s)| <= |s| && TrimStart(s) == s[|s| - |TrimStart(s)|..]
    decreases |s|
  {
    if |s| > 0 && IsBlankChar(s[0]) {
      TrimStartShape(s[1..]);
      if TrimStart(s) == [] {
        forall i | 0 <= i < |s| ensures IsBlankChar(s[i]) {
          if i > 0 { assert s[i] == s[1..][i - 1]; }
        }
      }
    }
  }

  lemma {:induction false} TrimEndShape(s: string)
    requires s != [] && !IsBlankChar(s[0])
    ensures TrimEnd(s) != [] && TrimEnd(s)[0] == s[0]
    ensures !IsBlankChar(TrimEnd(s)[|TrimEnd(s)| - 1])
    decreases |s|
  {
    if |s| > 0 && IsBlankChar(s[|s| - 1]) {
      TrimEndShape(s[..|s| - 1]);
    }
  }

  /** Whatever `trim` returns is trimmed; it is empty exactly when the input is all blank. */
  lemma TrimIsTrimmed(s: string)
    ensures IsTrimmed(Trim(s))
    ensures Trim(s) == [] <==> forall i :: 0 <= i < |s| ==> IsBlankChar(s[i])
  {
    TrimStartShape(s);
    var t := TrimStart(s);
    if t != [] {
      TrimEndShape(t);
    } else {
      assert Trim(s) == [];
    }
    if forall i :: 0 <= i < |s| ==> IsBlankChar(s[i]) {
      if t != [] {
        assert t[0] == s[|s| - |t|];
      }
    }
  }

  /** `trim` leaves a trimmed string alone, so trimming twice is trimming once. */
  lemma TrimmedIsFixed(s: string)
    requires IsTrimmed(s)
    ensures Trim(s) == s
  {
  }

  lemma TrimIdempotent(s: string)
    ensures Trim(Trim(s)) == Trim(s)
  {
    TrimIsTrimmed(s);
    TrimmedIsFixed(Trim(s));
  }

  /** `trim` sees through blank padding on either side of a non-blank string. */
  lemma PadTrim(pad: string, s: string)
    requires forall i :: 0 <= i < |pad| ==> IsBlankChar(pad[i])
    requires Trim(s) != []
    ensures Trim(pad + s + pad) == Trim(s)
  {
    assert pad + s + pad == pad + (s + pad);
    TrimStartPad(pad, s + pad);
    TrimStartKeepsTail(s, pad);
    TrimEndPad(TrimStart(s), pad);
  }

  lemma {:induction false} TrimStartPad(pad: string, s: string)
    requires forall i :: 0 <= i < |pad| ==> IsBlankChar(pad[i])
    ensures TrimStart(pad + s) == TrimStart(s)
    decreases |pad|
  {
    if pad != [] {
      assert (pad + s)[1..] == pad[1..] + s;
      TrimStartPad(pad[1..], s);
    } else {
      assert pad + s == s;
    }
  }

  lemma {:induction false} TrimStartKeepsTail(s: string, tail: string)
    requires TrimStart(s) != []
    ensures TrimStart(s + tail) == TrimStart(s) + tail
    decreases |s|
  {
    if IsBlankChar(s[0]) {
      assert (s + tail)[1..] == s[1..] + tail;
      TrimStartKeepsTail(s[1..], tail);
    }
  }

  lemma {:induction false} TrimEndPad(u: string, pad: string)
    requires forall i :: 0 <= i < |pad| ==> IsBlankChar(pad[i])
    ensures TrimEnd(u + pad) == TrimEnd(u)
    decreases |pad|
  {
    if pad != [] {
      var t := u + pad;
      assert t[..|t| - 1] == u + pad[..|pad| - 1];
      TrimEndPad(u, pad[..|pad| - 1]);
    } else {
      assert u + pad == u;
    }
  }

  // ---------------------------------------------------------------- split

  /** The pieces between occurrences of `d`, empty ones included. */
  function Pieces(s: string, d: char): (r: seq<string>)
    ensures |r| >= 1
    decreases |s|
  {
    if s == [] then [[]]
    else
      var rest := Pieces(s[1..], d);
      if s[0] == d then [[]] + rest else [[s[0]] + rest[0]] + rest[1..]
  }

  function DropTrailingEmpty(ps: seq<string>): seq<string>
  {
    if ps != [] && ps[|ps| - 1] == [] then DropTrailingEmpty(ps[..|ps| - 1]) else ps
  }

  /** `s.split(d)` for a single literal character: the whole string when `d`
      does not occur, otherwise the pieces without the trailing empty ones. */
  function Split(s: string, d: char): seq<string>
  {
    if d !in s then [s] else DropTrailingEmpty(Pieces(s, d))
  }

  /** The parts glued together with `d` between neighbours. */
  function Join(parts: seq<string>, d: char): string
    requires |parts| >= 1
  {
    if |parts| == 1 then parts[0] else parts[0] + [d] + Join(parts[1..], d)
  }

  lemma {:induction false} PiecesOfFree(s: string, d: char)
    requires d !in s
    ensures Pieces(s, d) == [s]
    decreases |s|
  {
    if s != [] {
      PiecesOfFree(s[1..], d);
      assert [s[0]] + s[1..] == s;
    }
  }

  lemma {:induction false} PiecesCons(a: string, b: string, d: char)
    requires d !in a
    ensures Pieces(a + [d] + b, d) == [a] + Pieces(b, d)
    decreases |a|
  {
    if a == [] {
      assert a + [d] + b == [d] + b;
      assert ([d] + b)[1..] == b;
    } else {
      var s := a + [d] + b;
      assert s[0] == a[0] && s[1..] == a[1..] + [d] + b;
      PiecesCons(a[1..], b, d);
      assert [a[0]] + a[1..] == a;
    }
  }

  lemma {:induction false} PiecesJoin(parts: seq<string>, d: char)
    requires |parts| >= 1
    requires forall i :: 0 <= i < |parts| ==> d !in parts[i]
    ensures Pieces(Join(parts, d), d) == parts
    decreases |parts|
  {
    if |parts| == 1 {
      PiecesOfFree(parts[0], d);
    } else {
      PiecesJoin(parts[1..], d);
      PiecesCons(parts[0], Join(parts[1..], d), d);
      assert [parts[0]] + parts[1..] == parts;
    }
  }

  lemma JoinContainsSeparator(parts: seq<string>, d: char)
    requires |parts| >= 2
    ensures d in Join(parts, d)
  {
    assert Join(parts, d)[|parts[0]|] == d;
  }

  /** Splitting what was joined gives the parts back, provided no part holds
      the separator and the last part is not empty (Java drops trailing empty
      pieces). */
  lemma SplitJoin(parts: seq<string>, d: char)
    requires |parts| >= 2
    requires forall i :: 0 <= i < |parts| ==> d !in parts[i]
    requires parts[|parts| - 1] != []
    ensures Split(Join(parts, d), d) == parts
  {
    JoinContainsSeparator(parts, d);
    PiecesJoin(parts, d);
  }

  /** Three parts joined: the separator between each neighbouring pair. */
  lemma JoinThree(a: string, b: string, c: string, d: char)
    ensures Join([a, b, c], d) == a + [d] + b + [d] + c
  {
    assert [a, b, c][1..] == [b, c] && [b, c][1..] == [c];
    assert Join([b, c], d) == b + [d] + c;
    assert a + [d] + (b + [d] + c) == a + [d] + b + [d] + c;
  }

  /** Two separator-free parts glued by the separator split back apart. */
  lemma SplitPair(a: string, b: string, d: char)
    requires d !in a && d !in b && b != []
    ensures Split(a + [d] + b, d) == [a, b]
  {
    assert [a, b][1..] == [b];
    assert Join([a, b], d) == a + [d] + b;
    SplitJoin([a, b], d);
  }

  // ---------------------------------------------------------------- decimal numbers

  function DigitChar(n: int): (c: char)
    requires 0 <= n <= 9
    ensures IsDigit(c)
  {
    ('0' as int + n) as char
  }

  function DigitValue(c: char): int
  {
    c as int - '0' as int
  }

  /** `Integer.toString` of a non-negative number: its decimal digits, no leading zeros. */
  function NatToString(n: nat): (r: string)
    ensures |r| >= 1 && AllDigits(r)
  {
    if n < 10 then [DigitChar(n)] else NatToString(n / 10) + [DigitChar(n % 10)]
  }

  /** The number a string of decimal digits denotes. */
  function DigitsValue(s: string): int
  {
    if s == [] then 0 else 10 * DigitsValue(s[..|s| - 1]) + DigitValue(s[|s| - 1])
  }

  function Zeros(k: nat): (r: string)
    ensures |r| == k && forall i :: 0 <= i < k ==> r[i] == '0'
  {
    seq(k, _ => '0')
  }

  /** Left-pads `s` with zeros to at least `width` characters, as the
      `dd`, `MM` and `yyyy` fields of `SimpleDateFormat` do. */
  function PadLeft(s: string, width: nat): (r: string)
  {
    if |s| >= width then s else Zeros(width - |s|) + s
  }

  lemma {:induction false} NatToStringValue(n: nat)
    ensures DigitsValue(NatToString(n)) == n
  {
    if n >= 10 {
      NatToStringValue(n / 10);
      var s := NatToString(n);
      assert s[..|s| - 1] == NatToString(n / 10);
    }
  }

  lemma NatToStringSmall(n: nat)
    ensures n < 10 ==> |NatToString(n)| == 1
    ensures 10 <= n < 100 ==> |NatToString(n)| == 2
    ensures n < 10000 ==> |NatToString(n)| <= 4
  {
    if n >= 10 {
      NatToStringSmall(n / 10);
    }
  }

  lemma {:induction false} LeadingZerosValue(k: nat, s: string)
    ensures DigitsValue(Zeros(k) + s) == DigitsValue(s)
    decreases |s|
  {
    if s == [] {
      assert Zeros(k) + s == Zeros(k);
      ZerosValue(k);
    } else {
      var t := Zeros(k) + s;
      assert t[..|t| - 1] == Zeros(k) + s[..|s| - 1];
      LeadingZerosValue(k, s[..|s| - 1]);
    }
  }

  lemma {:induction false} ZerosValue(k: nat)
    ensures DigitsValue(Zeros(k)) == 0
  {
    if k > 0 {
      assert Zeros(k)[..k - 1] == Zeros(k - 1);
      ZerosValue(k - 1);
    }
  }

  /** Reading back a zero-padded rendering gives the number. */
  lemma PadLeftValue(n: nat, width: nat)
    ensures AllDigits(PadLeft(NatToString(n), width))
    ensures |PadLeft(NatToString(n), width)| >= 1
    ensures DigitsValue(PadLeft(NatToString(n), width)) == n
  {
    var s := NatToString(n);
    NatToStringValue(n);
    if |s| < width {
      LeadingZerosValue(width - |s|, s);
    }
  }

  // ---------------------------------------------------------------- booleans

  /** `String.valueOf(b)`, as string concatenation renders a boolean. */
  function BoolToString(b: bool): string
  {
    if b then "true" else "false"
  }

  /** `Boolean.valueOf(s)`: true exactly for "true" in any mix of cases. */
  function ParseBoolean(s: string): bool
  {
    Lower(s) == "true"
  }

  /** A rendered boolean reads back as itself. */
  lemma ParseBooleanOfString(b: bool)
    ensures ParseBoolean(BoolToString(b)) == b
  {
    if !b {
      assert Lower("false")[0] == 'f';
    }
  }

  /** Both renderings are plain lower-case words, free of any separator. */
  lemma BoolToStringLetters(b: bool)
    ensures var s := BoolToString(b); s != [] && forall i :: 0 <= i < |s| ==> 'a' <= s[i] <= 'z'
  {
  }
}
