/** The string handling the launcher relies on: Python 2's `%i` and `%.2i`
    integer formatting, `int(...)` on a string, `','.join(...)`, and the way a
    POSIX shell cuts a command line into words at blanks. */
module Text {

  datatype Option<T> = None | Some(value: T)

  function Max0(n: int): nat { if n < 0 then 0 else n }

  /** Python truthiness of an optional string: `None` and `''` are both false. */
  predicate Truthy(s: Option<string>) { s.Some? && s.value != "" }

  predicate IsDigit(c: char) { '0' <= c <= '9' }

  predicate AllDigits(s: string) { forall i :: 0 <= i < |s| ==> IsDigit(s[i]) }

  function DigitChar(d: nat): (c: char)
    requires d < 10
    ensures IsDigit(c) && c as int - '0' as int == d
  {
    ('0' as int + d) as char
  }

  function DigitValue(c: char): nat
    requires IsDigit(c)
  {
    c as int - '0' as int
  }

  /** Decimal digits of `n`, most significant first, with no leading zero. */
  function NatToString(n: nat): (s: string)
    ensures |s| >= 1 && AllDigits(s)
    ensures n >= 10 ==> |s| >= 2
    ensures (s[0] == '0') == (n == 0)
  {
    if n < 10 then [DigitChar(n)] else NatToString(n / 10) + [DigitChar(n % 10)]
  }

  /** The value of a string of decimal digits (leading zeros allowed). */
  function DecimalValue(s: string): nat
    requires AllDigits(s)
  {
    if s == [] then 0 else DecimalValue(s[..|s| - 1]) * 10 + DigitValue(s[|s| - 1])
  }

  /** Python's `'%i' % n`: optional minus sign, then the digits of |n|. */
  function IntToString(n: int): string
  {
    if n < 0 then "-" + NatToString(-n) else NatToString(n)
  }

  /** Python's `'%.2i' % n` for n >= 0: at least two digits, zero-padded. */
  function ZeroPad2(n: nat): string
  {
    if n < 10 then "0" + NatToString(n) else NatToString(n)
  }

  /** The characters Python 2's `int()` skips around a number (C `isspace`). */
  predicate IsSpace(c: char)
  {
    c == ' ' || c == '\t' || c == '\n' || c == '\r' || c as int == 11 || c as int == 12
  }

  function TrimLeft(s: string): (t: string)
    ensures |t| <= |s|
    ensures t == [] || !IsSpace(t[0])
  {
    if s != [] && IsSpace(s[0]) then TrimLeft(s[1..]) else s
  }

  function TrimRight(s: string): (t: string)
    ensures |t| <= |s|
    ensures t == [] || !IsSpace(t[|t| - 1])
  {
    if s != [] && IsSpace(s[|s| - 1]) then TrimRight(s[..|s| - 1]) else s
  }

  /** Python 2's `int(s)` on a byte string in base 10: surrounding white space
      is ignored; then one optional sign, which white space may follow, and at
      least one decimal digit; anything else raises ValueError, which is `None`
      here. */
  function ParseInt(s: string): Option<int>
  {
    ParseTrimmed(TrimRight(TrimLeft(s)))
  }

  /** `int()` once the surrounding white space is gone. */
  function ParseTrimmed(t: string): Option<int>
  {
    if |t| >= 1 && (t[0] == '-' || t[0] == '+') then
      var d := TrimLeft(t[1..]);
      if |d| >= 1 && AllDigits(d) then
        Some(if t[0] == '-' then -(DecimalValue(d) as int) else DecimalValue(d))
      else None
    else if |t| >= 1 && AllDigits(t) then Some(DecimalValue(t))
    else None
  }

  /** Python's `sep.join(parts)` for a one-character separator. */
  function JoinWith(parts: seq<string>, sep: char): string
  {
    if |parts| == 0 then ""
    else if |parts| == 1 then parts[0]
    else parts[0] + [sep] + JoinWith(parts[1..], sep)
  }

  /** Cut `s` at every character of `seps`, keeping empty pieces, so that
      there is always one piece more than there are separators in `s`. */
  function Split(s: string, seps: set<char>): (r: seq<string>)
    ensures |r| >= 1
  {
    if s == [] then [""]
    else if s[0] in seps then [""] + Split(s[1..], seps)
    else var t := Split(s[1..], seps); [[s[0]] + t[0]] + t[1..]
  }

  function NonEmpty(pieces: seq<string>): seq<string>
  {
    if pieces == [] then []
    else if pieces[0] == "" then NonEmpty(pieces[1..])
    else [pieces[0]] + NonEmpty(pieces[1..])
  }

  /** The blanks at which a shell ends an unquoted word: space and tab (a
      newline ends the whole command instead). */
  const Blanks: set<char> := {' ', '\t'}

  /** The argument vector a shell builds from an unquoted command line:
      runs of blanks separate words and produce no empty words. */
  function ShellWords(s: string): seq<string>
  {
    NonEmpty(Split(s, Blanks))
  }

  /** A string the shell passes on as exactly one word. */
  predicate IsWord(w: string)
  {
    w != [] && forall i :: 0 <= i < |w| ==> w[i] !in Blanks
  }

  /** A character a POSIX shell takes literally wherever it stands in an
      unquoted word: no blank, quote, operator, comment or expansion. */
  predicate PlainChar(c: char)
  {
    'a' <= c <= 'z' || 'A' <= c <= 'Z' || IsDigit(c)
    || c == '-' || c == '_' || c == '.' || c == '/' || c == ':' || c == ','
    || c == '+' || c == '=' || c == '@' || c == '%'
  }

  /** A non-empty string made of such characters: the shell passes it on
      unchanged, as one word. */
  predicate ShellPlain(w: string)
  {
    w != [] && forall i :: 0 <= i < |w| ==> PlainChar(w[i])
  }

  predicate Excludes(s: string, c: char)
  {
    forall i :: 0 <= i < |s| ==> s[i] != c
  }

  // ---------------------------------------------------------------------
  // Number formatting and parsing

  lemma {:induction false} DecimalValueOfNatToString(n: nat)
    ensures DecimalValue(NatToString(n)) == n
  {
    if n >= 10 {
      var s := NatToString(n);
      assert s == NatToString(n / 10) + [DigitChar(n % 10)];
      assert s[..|s| - 1] == NatToString(n / 10);
      DecimalValueOfNatToString(n / 10);
    }
  }

  /** A single digit is worth its value. */
  lemma DigitsValue(c: char)
    requires IsDigit(c)
    ensures AllDigits([c]) && DecimalValue([c]) == DigitValue(c)
  {
    assert [c][..0] == [];
  }

  /** `'%i'` never produces the same text for two different integers. */
  lemma NatToStringInjective(a: nat, b: nat)
    requires NatToString(a) == NatToString(b)
    ensures a == b
  {
    DecimalValueOfNatToString(a);
    DecimalValueOfNatToString(b);
  }

  lemma TrimOfDigits(s: string)
    requires |s| >= 1 && (AllDigits(s) || (s[0] == '-' && AllDigits(s[1..])))
    ensures TrimRight(TrimLeft(s)) == s
  {
  }

  /** `int()` of a non-empty run of digits is their value. */
  lemma ParseIntOfDigits(t: string)
    requires |t| >= 1 && AllDigits(t)
    ensures ParseInt(t) == Some(DecimalValue(t))
  {
    TrimOfDigits(t);
    ParseTrimmedOfDigits(t);
  }

  lemma ParseTrimmedOfDigits(t: string)
    requires |t| >= 1 && AllDigits(t)
    ensures ParseTrimmed(t) == Some(DecimalValue(t))
  {
    assert IsDigit(t[0]);
  }

  /** `int()` of a minus sign and a non-empty run of digits is minus their value. */
  lemma ParseIntOfNegative(d: string)
    requires |d| >= 1 && AllDigits(d)
    ensures ParseInt("-" + d) == Some(-(DecimalValue(d) as int))
  {
    var t := "-" + d;
    assert t[0] == '-' && t[1..] == d;
    TrimOfDigits(t);
    ParseTrimmedOfNegative(t, d);
  }

  lemma ParseTrimmedOfNegative(t: string, d: string)
    requires |d| >= 1 && AllDigits(d)
    requires |t| >= 2 && t[0] == '-' && t[1..] == d
    ensures ParseTrimmed(t) == Some(-(DecimalValue(d) as int))
  {
    assert IsDigit(d[0]);
  }

  /** White space before a non-blank rest is skipped. */
  lemma {:induction false} TrimLeftBlanks(sp: string, d: string)
    requires forall i :: 0 <= i < |sp| ==> IsSpace(sp[i])
    requires d != [] && !IsSpace(d[0])
    ensures TrimLeft(sp + d) == d
  {
    if sp != [] {
      assert (sp + d)[0] == sp[0];
      assert (sp + d)[1..] == sp[1..] + d;
      TrimLeftBlanks(sp[1..], d);
    } else {
      assert sp + d == d;
    }
  }

  /** `int()` lets white space stand between the sign and the digits:
      `int('+ 3') == 3` and `int('- 3') == -3`. */
  lemma ParseIntSignThenBlanks(sp: string, d: string)
    requires forall i :: 0 <= i < |sp| ==> IsSpace(sp[i])
    requires |d| >= 1 && AllDigits(d)
    ensures ParseInt("+" + sp + d) == Some(DecimalValue(d))
    ensures ParseInt("-" + sp + d) == Some(-(DecimalValue(d) as int))
  {
    var plus, minus := "+" + sp + d, "-" + sp + d;
    assert plus == ['+'] + sp + d && minus == ['-'] + sp + d;
    SignedUntrimmed('+', sp, d);
    SignedUntrimmed('-', sp, d);
    ParseTrimmedSigned(plus, d);
    ParseTrimmedSigned(minus, d);
  }

  lemma ParseTrimmedSigned(t: string, d: string)
    requires |t| >= 1 && (t[0] == '+' || t[0] == '-')
    requires |d| >= 1 && AllDigits(d) && TrimLeft(t[1..]) == d
    ensures ParseTrimmed(t) == Some(if t[0] == '-' then -(DecimalValue(d) as int) else DecimalValue(d))
  {
  }

  lemma ParseIntPlusBlankThree()
    ensures ParseInt("+ 3") == Some(3)
  {
    assert "+ 3" == "+" + " " + "3";
    DigitsValue('3');
    ParseIntSignThenBlanks(" ", "3");
  }

  lemma ParseIntMinusBlankTwo()
    ensures ParseInt("- 2") == Some(-2)
  {
    assert "- 2" == "-" + " " + "2";
    DigitsValue('2');
    ParseIntSignThenBlanks(" ", "2");
  }

  /** A sign, white space and digits: trimming leaves it as it is, and
      what follows the sign trims to the digits. */
  lemma SignedUntrimmed(c: char, sp: string, d: string)
    requires c == '+' || c == '-'
    requires forall i :: 0 <= i < |sp| ==> IsSpace(sp[i])
    requires |d| >= 1 && AllDigits(d)
    ensures var t := [c] + sp + d;
            TrimRight(TrimLeft(t)) == t && t[0] == c && TrimLeft(t[1..]) == d
  {
    var t := [c] + sp + d;
    assert IsDigit(d[0]) && IsDigit(d[|d| - 1]);
    assert t[1..] == sp + d;
    TrimLeftBlanks(sp, d);
    assert t[|t| - 1] == d[|d| - 1];
  }

  /** A word that starts with neither white space, a sign nor a digit, and
      ends without white space, is not a number: `int()` raises ValueError. */
  lemma ParseIntOfName(s: string)
    requires s != [] && !IsSpace(s[0]) && s[0] != '+' && s[0] != '-' && !IsDigit(s[0])
    requires !IsSpace(s[|s| - 1])
    ensures ParseInt(s) == None
  {
    assert TrimLeft(s) == s;
    assert TrimRight(s) == s;
  }

  /** `int('%i' % n) == n`: the port text in a host string reads back as the port. */
  lemma ParseIntOfIntToString(n: int)
    ensures ParseInt(IntToString(n)) == Some(n)
  {
    if n < 0 {
      ParseIntOfNegativeInt(n);
    } else {
      ParseIntOfNat(n);
    }
  }

  lemma ParseIntOfNegativeInt(n: int)
    requires n < 0
    ensures ParseInt(IntToString(n)) == Some(n)
  {
    var m: nat := -n;
    var d := NatToString(m);
    assert IntToString(n) == "-" + d;
    assert DecimalValue(d) == m by { DecimalValueOfNatToString(m); }
    ParseIntOfNegative(d);
  }

  lemma ParseIntOfNat(n: nat)
    ensures ParseInt(IntToString(n)) == Some(n)
  {
    var d := NatToString(n);
    assert IntToString(n) == d;
    ParseIntOfDigits(d);
    DecimalValueOfNatToString(n);
  }

  lemma DecimalValueLeadingZero(s: string)
    requires AllDigits(s)
    ensures AllDigits("0" + s) && DecimalValue("0" + s) == DecimalValue(s)
  {
    if s != [] {
      assert ("0" + s)[..|"0" + s| - 1] == "0" + s[..|s| - 1];
      DecimalValueLeadingZero(s[..|s| - 1]);
    }
  }

  /** `'%.2i' % n` has at least two digits and reads back as n; different
      numbers are therefore never padded to the same text. The padding is
      minimal: below 10 the text is exactly two digits, from 10 on it is
      the plain decimal text. */
  lemma ZeroPad2Spec(n: nat)
    ensures |ZeroPad2(n)| >= 2 && AllDigits(ZeroPad2(n))
    ensures |ZeroPad2(n)| == if n < 10 then 2 else |NatToString(n)|
    ensures ParseInt(ZeroPad2(n)) == Some(n)
    ensures n >= 10 ==> ZeroPad2(n) == NatToString(n)
  {
    var s := ZeroPad2(n);
    DecimalValueOfNatToString(n);
    if n < 10 {
      DecimalValueLeadingZero(NatToString(n));
    }
    assert AllDigits(s) && DecimalValue(s) == n;
    ParseIntOfDigits(s);
  }

  lemma IntToStringExcludes(n: int, c: char)
    requires c != '-' && !IsDigit(c)
    ensures Excludes(IntToString(n), c) && IntToString(n) != []
  {
  }

  // ---------------------------------------------------------------------
  // Splitting and joining

  /** Splitting distributes over a separator character. */
  lemma {:induction false} SplitAround(a: string, c: char, b: string, seps: set<char>)
    requires c in seps
    ensures Split(a + [c] + b, seps) == Split(a, seps) + Split(b, seps)
  {
    if a == [] {
      assert a + [c] + b == [c] + b;
      assert ([c] + b)[1..] == b;
    } else {
      assert (a + [c] + b)[0] == a[0];
      assert (a + [c] + b)[1..] == a[1..] + [c] + b;
      SplitAround(a[1..], c, b, seps);
    }
  }

  /** A string with no separator is a single piece. */
  lemma {:induction false} SplitWithoutSeparator(w: string, seps: set<char>)
    requires forall i :: 0 <= i < |w| ==> w[i] !in seps
    ensures Split(w, seps) == [w]
  {
    if w != [] {
      SplitWithoutSeparator(w[1..], seps);
      assert [w[0]] + w[1..] == w;
    }
  }

  /** `','.join` is undone by splitting at ',' when no part contains ','. */
  lemma {:induction false} SplitJoinWith(parts: seq<string>, sep: char)
    requires |parts| >= 1
    requires forall k :: 0 <= k < |parts| ==> Excludes(parts[k], sep)
    ensures Split(JoinWith(parts, sep), {sep}) == parts
  {
    if |parts| == 1 {
      SplitWithoutSeparator(parts[0], {sep});
    } else {
      SplitAround(parts[0], sep, JoinWith(parts[1..], sep), {sep});
      SplitWithoutSeparator(parts[0], {sep});
      SplitJoinWith(parts[1..], sep);
      assert parts == [parts[0]] + parts[1..];
    }
  }

  lemma {:induction false} NonEmptyAppend(a: seq<string>, b: seq<string>)
    ensures NonEmpty(a + b) == NonEmpty(a) + NonEmpty(b)
  {
    if a != [] {
      assert (a + b)[0] == a[0];
      assert (a + b)[1..] == a[1..] + b;
      NonEmptyAppend(a[1..], b);
    } else {
      assert a + b == b;
    }
  }

  /** A blank between two strings separates their words. */
  lemma ShellWordsAround(a: string, b: string)
    ensures ShellWords(a + " " + b) == ShellWords(a) + ShellWords(b)
  {
    SplitAround(a, ' ', b, Blanks);
    NonEmptyAppend(Split(a, Blanks), Split(b, Blanks));
  }

  lemma PlainIsWord(w: string)
    requires ShellPlain(w)
    ensures IsWord(w)
  {
  }

  lemma ShellWordsOfWord(w: string)
    requires IsWord(w)
    ensures ShellWords(w) == [w]
  {
    SplitWithoutSeparator(w, Blanks);
    assert NonEmpty([w]) == [w] + NonEmpty([]);
  }

  lemma ShellWordsOfEmpty()
    ensures ShellWords("") == []
  {
    assert Split("", Blanks) == [""];
    assert [""][1..] == [];
  }
}
