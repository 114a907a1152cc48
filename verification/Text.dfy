/** The C string operations the HTTP code relies on, as functions of strings without NUL. */
module Text {
  import opened Common

  /** memchr: the first position of `c`, or the length if there is none. */
  function IndexOf(s: string, c: char): (k: nat)
    ensures k <= |s| && (k < |s| ==> s[k] == c)
    ensures forall j :: 0 <= j < k ==> s[j] != c
  {
    if s == [] || s[0] == c then 0 else 1 + IndexOf(s[1..], c)
  }

  lemma IndexOfAppend(a: string, b: string, c: char)
    ensures IndexOf(a + b, c) == if IndexOf(a, c) < |a| then IndexOf(a, c) else |a| + IndexOf(b, c)
  {
    var k, i, m := IndexOf(a + b, c), IndexOf(a, c), IndexOf(b, c);
    assert i < |a| ==> (a + b)[i] == c;
    assert k < |a| ==> (a + b)[k] == a[k];
    assert |a| <= k < |a + b| ==> (a + b)[k] == b[k - |a|];
    assert m < |b| ==> (a + b)[|a| + m] == c;
    assert forall j :: |a| <= j < |a| + m ==> (a + b)[j] == b[j - |a|];
  }

  datatype Separated = Separated(first: string, rest: Option<string>)

  /** hasStrsep: the part before the first `c`, and the part after it if `c` occurs. */
  function Split(s: string, c: char): Separated {
    var k := IndexOf(s, c);
    if k < |s| then Separated(s[..k], Some(s[k + 1..])) else Separated(s, None)
  }

  lemma SplitAt(a: string, b: string, c: char)
    requires c !in a
    ensures Split(a + [c] + b, c) == Separated(a, Some(b))
  {
    IndexOfAppend(a, [c] + b, c);
    assert a + [c] + b == a + ([c] + b);
  }

  predicate IsEol(c: char) { c == '\r' || c == '\n' }

  function SkipEol(s: string): string {
    if s != [] && IsEol(s[0]) then SkipEol(s[1..]) else s
  }

  function UpToEol(s: string): string {
    if s == [] || IsEol(s[0]) then [] else [s[0]] + UpToEol(s[1..])
  }

  /** strtok(s, "\r\n"). */
  function Token(s: string): Option<string> {
    var t := SkipEol(s);
    if t == [] then None else Some(UpToEol(t))
  }

  predicate NoEol(s: string) {
    forall i :: 0 <= i < |s| ==> !IsEol(s[i])
  }

  lemma {:induction false} UpToEolStops(a: string, b: string)
    requires NoEol(a) && b != [] && IsEol(b[0])
    ensures UpToEol(a + b) == a
  {
    if a == [] {
      assert a + b == b;
    } else {
      assert (a + b)[1..] == a[1..] + b;
      UpToEolStops(a[1..], b);
    }
  }

  lemma TokenOfLine(a: string)
    requires a != [] && NoEol(a)
    ensures Token(a + "\r\n") == Some(a)
  {
    UpToEolStops(a, "\r\n");
  }

  function SkipSpaces(s: string): string {
    if s != [] && s[0] == ' ' then SkipSpaces(s[1..]) else s
  }

  // ---------- decimal numbers ----------

  predicate IsDigit(c: char) { '0' <= c <= '9' }

  predicate IsSpace(c: char) { c == ' ' || '\t' <= c <= '\r' }

  function Digits(s: string, acc: int): int {
    if s == [] || !IsDigit(s[0]) then acc
    else Digits(s[1..], acc * 10 + (s[0] as int - '0' as int))
  }

  function Atoi(s: string): int {
    if s == [] then 0
    else if IsSpace(s[0]) then Atoi(s[1..])
    else if s[0] == '-' then -Digits(s[1..], 0)
    else if s[0] == '+' then Digits(s[1..], 0)
    else Digits(s, 0)
  }

  function NatToString(n: nat): (s: string)
    ensures s != [] && forall i :: 0 <= i < |s| ==> IsDigit(s[i])
  {
    var d := ('0' as int + n % 10) as char;
    if n < 10 then [d] else NatToString(n / 10) + [d]
  }

  /** std::to_string and "%d". */
  function IntToString(n: int): (s: string)
    ensures s != [] && forall i :: 0 <= i < |s| ==> IsDigit(s[i]) || s[i] == '-'
  {
    if n < 0 then "-" + NatToString(-n) else NatToString(n)
  }

  lemma {:induction false} DigitsSnoc(s: string, c: char, acc: int)
    requires IsDigit(c) && forall i :: 0 <= i < |s| ==> IsDigit(s[i])
    ensures Digits(s + [c], acc) == Digits(s, acc) * 10 + (c as int - '0' as int)
  {
    if s == [] {
      assert Digits([c][1..], acc * 10 + (c as int - '0' as int)) == acc * 10 + (c as int - '0' as int);
    } else {
      assert (s + [c])[1..] == s[1..] + [c];
      DigitsSnoc(s[1..], c, acc * 10 + (s[0] as int - '0' as int));
    }
  }

  lemma {:induction false} DigitsOfNat(n: nat)
    ensures Digits(NatToString(n), 0) == n
  {
    var d := ('0' as int + n % 10) as char;
    DigitsSnoc(if n < 10 then [] else NatToString(n / 10), d, 0);
    if n >= 10 {
      DigitsOfNat(n / 10);
    } else {
      assert [] + [d] == [d];
    }
  }

  /** atoi reads back what to_string prints. */
  lemma AtoiOfInt(n: int)
    ensures Atoi(IntToString(n)) == n
  {
    if n < 0 {
      DigitsOfNat(-n);
      assert IntToString(n)[1..] == NatToString(-n);
    } else {
      DigitsOfNat(n);
      assert IsDigit(NatToString(n)[0]);
    }
  }

  lemma {:induction false} DigitsStop(s: string, rest: string, acc: int)
    requires (forall i :: 0 <= i < |s| ==> IsDigit(s[i])) && (rest != "" ==> !IsDigit(rest[0]))
    ensures Digits(s + rest, acc) == Digits(s, acc)
  {
    if s == "" {
      assert s + rest == rest;
    } else {
      assert (s + rest)[1..] == s[1..] + rest;
      DigitsStop(s[1..], rest, acc * 10 + (s[0] as int - '0' as int));
    }
  }

  lemma SignedReads(n: nat, rest: string)
    requires rest != "" ==> !IsDigit(rest[0])
    ensures var digits := NatToString(n) + rest;
      Atoi(digits) == n && Atoi("+" + digits) == n && Atoi("-" + digits) == -(n as int)
  {
    var digits := NatToString(n) + rest;
    DigitsStop(NatToString(n), rest, 0);
    DigitsOfNat(n);
    assert IsDigit(digits[0]);
    assert ("+" + digits)[1..] == ("-" + digits)[1..] == digits;
    hide Digits, NatToString;
  }

  /** atoi passes over white space, takes either sign, and stops at the first character that is
      no digit. */
  lemma AtoiReads(spaces: string, n: nat, rest: string)
    requires forall i :: 0 <= i < |spaces| ==> spaces[i] in {' ', '\t', '\n', 11 as char, 12 as char, '\r'}
    requires rest != "" ==> !('0' <= rest[0] <= '9')
    ensures var digits := NatToString(n) + rest;
      && Atoi(spaces + digits) == n && Atoi(spaces + ("+" + digits)) == n
      && Atoi(spaces + ("-" + digits)) == -(n as int)
  {
    var digits := NatToString(n) + rest;
    SignedReads(n, rest);
    hide Atoi, NatToString;
    SpacesSkipped(spaces, digits);
    SpacesSkipped(spaces, "+" + digits);
    SpacesSkipped(spaces, "-" + digits);
  }

  lemma {:induction false} SpacesSkipped(spaces: string, t: string)
    requires forall i :: 0 <= i < |spaces| ==> spaces[i] in {' ', '\t', '\n', 11 as char, 12 as char, '\r'}
    ensures Atoi(spaces + t) == Atoi(t)
  {
    if spaces == "" {
      assert spaces + t == t;
    } else {
      SpacesSkipped(spaces[1..], t);
      assert (spaces + t)[1..] == spaces[1..] + t;
    }
  }
}
