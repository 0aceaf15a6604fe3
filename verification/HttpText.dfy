/** The string functions that the HTTP printer and parser rest on. Characters stand for bytes. */
module HttpText {
  import opened Common

  predicate Space(c: char) {
    c == ' ' || c == '\t' || c == '\n' || c == '\r' || c == '\U{B}' || c == '\U{C}'
  }

  function TrimLeft(s: string): string {
    if s != [] && Space(s[0]) then TrimLeft(s[1..]) else s
  }

  function TrimRight(s: string): string {
    if s != [] && Space(s[|s| - 1]) then TrimRight(s[..|s| - 1]) else s
  }

  function Trim(s: string): string {
    TrimRight(TrimLeft(s))
  }

  predicate Trimmed(s: string) {
    s == [] || (!Space(s[0]) && !Space(s[|s| - 1]))
  }

  lemma {:induction false} TrimLeftStarts(s: string)
    ensures TrimLeft(s) == [] || !Space(TrimLeft(s)[0])
    ensures |TrimLeft(s)| <= |s| && TrimLeft(s) == s[|s| - |TrimLeft(s)|..]
  {
    if s != [] && Space(s[0]) {
      TrimLeftStarts(s[1..]);
    }
  }

  lemma {:induction false} TrimRightEnds(s: string)
    ensures TrimRight(s) <= s
    ensures TrimRight(s) == [] || !Space(TrimRight(s)[|TrimRight(s)| - 1])
  {
    if s != [] && Space(s[|s| - 1]) {
      TrimRightEnds(s[..|s| - 1]);
    }
  }

  /** Trimming gives a trimmed string and leaves exactly the trimmed strings alone. */
  lemma TrimExactly(s: string)
    ensures Trimmed(Trim(s))
    ensures Trim(s) == s <==> Trimmed(s)
  {
    if Trimmed(s) {
      TrimmedStays(s);
    }
    hide TrimLeft, TrimRight;
    var left := TrimLeft(s);
    TrimLeftStarts(s);
    TrimRightEnds(left);
    assert Trim(s) <= left;
    assert Trim(s) != [] ==> Trim(s)[0] == left[0];
  }

  lemma TrimmedStays(s: string)
    requires Trimmed(s)
    ensures Trim(s) == s
  {
  }

  predicate AllSpace(s: string) {
    forall i :: 0 <= i < |s| ==> Space(s[i])
  }

  lemma {:induction false} TrimRightPadding(s: string, pad: string)
    requires AllSpace(pad)
    ensures TrimRight(s + pad) == TrimRight(s)
    decreases |pad|
  {
    if pad == [] {
      assert s + pad == s;
    } else {
      assert (s + pad)[..|s + pad| - 1] == s + pad[..|pad| - 1];
      TrimRightPadding(s, pad[..|pad| - 1]);
    }
  }

  /** White space after a string that starts without any is dropped. */
  lemma TrimPadding(s: string, pad: string)
    requires Trimmed(s) && AllSpace(pad)
    ensures Trim(s + pad) == s
  {
    TrimExactly(s);
    if s == [] {
      AllSpaceTrims(pad);
      assert s + pad == pad;
    } else {
      assert TrimLeft(s + pad) == s + pad;
      TrimRightPadding(s, pad);
    }
  }

  lemma {:induction false} AllSpaceTrims(s: string)
    requires AllSpace(s)
    ensures Trim(s) == []
  {
    if s != [] {
      AllSpaceTrims(s[1..]);
    }
  }

  /** White space before a trimmed string is dropped. */
  lemma TrimBefore(c: char, s: string)
    requires Space(c) && Trimmed(s)
    ensures Trim([c] + s) == s
  {
    TrimExactly(s);
    assert ([c] + s)[1..] == s;
  }

  // ----- Searching and splitting -----

  function IndexOf(s: string, c: char): (r: Option<nat>)
    ensures r.Some? ==> r.value < |s| && s[r.value] == c && c !in s[..r.value]
    ensures r.None? ==> c !in s
  {
    if s == [] then None
    else if s[0] == c then Some(0)
    else
      var r := IndexOf(s[1..], c);
      assert r.Some? ==> s[..r.value + 1] == [s[0]] + s[1..][..r.value];
      if r.Some? then Some(r.value + 1) else None
  }

  lemma IndexOfFirst(a: string, c: char, b: string)
    requires c !in a
    ensures IndexOf(a + [c] + b, c) == Some(|a|)
  {
    var s := a + [c] + b;
    assert s[|a|] == c && s[..|a|] == a;
    var i := IndexOf(s, c).value;
    assert forall k :: 0 <= k < i ==> s[k] != c by {
      assert forall k :: 0 <= k < i ==> s[k] == s[..i][k];
    }
    assert forall k :: 0 <= k < |a| ==> s[k] == a[k] && a[k] != c;
  }

  /** strings.Split at single spaces. */
  function Split(s: string): (r: seq<string>)
    ensures r != []
    decreases |s|
  {
    var i := IndexOf(s, ' ');
    if i.None? then [s] else [s[..i.value]] + Split(s[i.value + 1..])
  }

  /** strings.SplitN at single spaces, with at most `n` parts. */
  function SplitN(s: string, n: nat): (r: seq<string>)
    requires n > 0
    ensures 0 < |r| <= n
  {
    var i := IndexOf(s, ' ');
    if n == 1 || i.None? then [s] else [s[..i.value]] + SplitN(s[i.value + 1..], n - 1)
  }

  lemma SplitAt(a: string, b: string)
    requires ' ' !in a
    ensures Split(a + " " + b) == [a] + Split(b)
    ensures forall n :: n > 1 ==> SplitN(a + " " + b, n) == [a] + SplitN(b, n - 1)
  {
    var s := a + " " + b;
    IndexOfFirst(a, ' ', b);
    assert s[..|a|] == a && s[|a| + 1..] == b;
  }

  lemma SplitOne(a: string)
    requires ' ' !in a
    ensures Split(a) == [a] && forall n :: n > 0 ==> SplitN(a, n) == [a]
  {
  }

  function LowerChar(c: char): char {
    if 'A' <= c <= 'Z' then (c as int - 'A' as int + 'a' as int) as char else c
  }

  function Lower(s: string): (r: string)
    ensures |r| == |s| && forall i :: 0 <= i < |s| ==> r[i] == LowerChar(s[i])
  {
    seq(|s|, i requires 0 <= i < |s| => LowerChar(s[i]))
  }

  // ----- Numbers -----

  function Digit(d: nat): char
    requires d < 10
  {
    ('0' as int + d) as char
  }

  predicate IsDigit(c: char) {
    '0' <= c <= '9'
  }

  function Itoa(n: nat): string {
    if n < 10 then [Digit(n)] else Itoa(n / 10) + [Digit(n % 10)]
  }

  predicate Digits(s: string) {
    s != [] && forall i :: 0 <= i < |s| ==> IsDigit(s[i])
  }

  function Value(s: string): nat
    requires forall i :: 0 <= i < |s| ==> IsDigit(s[i])
  {
    if s == [] then 0
    else
      assert IsDigit(s[|s| - 1]);
      10 * Value(s[..|s| - 1]) + (s[|s| - 1] as int - '0' as int)
  }

  const MAX_INT: nat := 0x7fff_ffff_ffff_ffff

  /** strconv.Atoi: an optional sign and digits, within 64 bits. */
  function Atoi(s: string): Option<int> {
    var signed := s != [] && (s[0] == '-' || s[0] == '+');
    var body := if signed then s[1..] else s;
    if !Digits(body) then None
    else
      var n: int := if signed && s[0] == '-' then 0 - Value(body) else Value(body);
      if -(MAX_INT + 1) <= n <= MAX_INT then Some(n) else None
  }

  /** fmt's %d. */
  function Decimal(n: int): string {
    if n < 0 then "-" + Itoa(-n) else Itoa(n)
  }

  lemma {:induction false} ItoaValue(n: nat)
    ensures Digits(Itoa(n)) && Value(Itoa(n)) == n
  {
    if n < 10 {
      assert Itoa(n)[..0] == [];
    } else {
      ItoaValue(n / 10);
      assert Itoa(n)[..|Itoa(n)| - 1] == Itoa(n / 10);
    }
  }

  /** A printed number reads back exactly when it fits in 64 bits. */
  lemma AtoiDecimalExactly(n: int)
    ensures Atoi(Decimal(n)) == Some(n) <==> -(MAX_INT + 1) <= n <= MAX_INT
    ensures ' ' !in Decimal(n) && '\n' !in Decimal(n) && Trimmed(Decimal(n)) && Decimal(n) != []
  {
    if n < 0 {
      ItoaValue(-n);
      SignedDigits(Itoa(-n));
    } else {
      ItoaValue(n);
      PlainDigits(Itoa(n));
    }
  }

  lemma PlainDigits(s: string)
    requires Digits(s)
    ensures Atoi(s) == if Value(s) <= MAX_INT then Some(Value(s)) else None
    ensures ' ' !in s && '\n' !in s && Trimmed(s)
  {
    assert IsDigit(s[0]) && IsDigit(s[|s| - 1]);
  }

  lemma SignedDigits(s: string)
    requires Digits(s)
    ensures Atoi("-" + s) == if Value(s) <= MAX_INT + 1 then Some(0 - Value(s)) else None
    ensures ' ' !in "-" + s && '\n' !in "-" + s && Trimmed("-" + s)
  {
    assert ("-" + s)[1..] == s;
    assert IsDigit(s[|s| - 1]);
  }

  // ----- The tables -----

  /** Lower case is the alphabet letter for letter, and leaves everything else alone. */
  lemma LowerLetters(c: char)
    ensures Lower("ABCDEFGHIJKLMNOPQRSTUVWXYZ") == "abcdefghijklmnopqrstuvwxyz"
    ensures c !in "ABCDEFGHIJKLMNOPQRSTUVWXYZ" ==> Lower([c]) == [c]
  {
    var upper, lower := "ABCDEFGHIJKLMNOPQRSTUVWXYZ", "abcdefghijklmnopqrstuvwxyz";
    assert forall i :: 0 <= i < 26 ==> Lower(upper)[i] == lower[i];
    if 'A' <= c <= 'Z' {
      assert upper[c as int - 'A' as int] == c;
    }
  }

  /** Numbers are printed in decimal, most significant digit first. */
  lemma PrintedDigits()
    ensures Decimal(0) == "0" && Decimal(1048576) == "1048576" && Decimal(-239) == "-239"
  {
    assert Itoa(1) == "1" && Itoa(10) == "10" && Itoa(104) == "104" && Itoa(1048) == "1048";
    assert Itoa(10485) == "10485" && Itoa(104857) == "104857" && Itoa(1048576) == "1048576";
    assert Itoa(2) == "2" && Itoa(23) == "23" && Itoa(239) == "239";
  }

  /** White space is these six characters. */
  lemma SpacesAre(c: char)
    ensures Trim([c]) == [] <==> c in "\t\n\U{B}\U{C}\r "
  {
    var blanks := "\t\n\U{B}\U{C}\r ";
    assert blanks[0] == '\t' && blanks[1] == '\n' && blanks[2] == '\U{B}' && blanks[3] == '\U{C}';
    assert blanks[4] == '\r' && blanks[5] == ' ';
    assert [c][1..] == [] && TrimLeft([]) == [] && TrimRight([]) == [];
    if Space(c) {
      assert TrimLeft([c]) == TrimLeft([c][1..]);
    } else {
      TrimmedStays([c]);
    }
  }

  /** A number may carry a sign, and nothing but digits behind it. */
  lemma AtoiForms(s: string)
    ensures Digits(s) ==> Atoi("+" + s) == Atoi(s)
    ensures Digits(s) ==> Atoi("-" + s) == if Value(s) <= MAX_INT + 1 then Some(0 - Value(s)) else None
    ensures !Digits(s) ==> Atoi("+" + s) == None && Atoi("-" + s) == None
    ensures Atoi("") == None
  {
    assert ("+" + s)[1..] == s && ("-" + s)[1..] == s;
    if Digits(s) {
      assert IsDigit(s[0]);
    }
  }
}
