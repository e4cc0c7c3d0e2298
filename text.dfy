/** The string operations of JavaScript that the catalog code relies on:
    `trim`, ASCII case mapping, `includes`, `startsWith`, `split`/`join`,
    decimal rendering of integers and `parseInt(s, 10)`. */
module Text {
  import opened Base

  /** The characters that `String.prototype.trim` and the regular expression
      class `\s` treat as white space (WhiteSpace and LineTerminator of
      ECMAScript). */
  predicate IsJsSpace(c: char) {
    var n := c as int;
    (9 <= n <= 13) || n == 32 || n == 0xA0 || n == 0x1680 || (0x2000 <= n <= 0x200A)
    || n == 0x2028 || n == 0x2029 || n == 0x202F || n == 0x205F || n == 0x3000 || n == 0xFEFF
  }

  predicate IsBlank(s: string) {
    forall i :: 0 <= i < |s| ==> IsJsSpace(s[i])
  }

  /** The UTF-16 code units one character takes: two outside the Basic
      Multilingual Plane, one inside it. */
  function Utf16Units(c: char): nat {
    if c as int >= 0x10000 then 2 else 1
  }

  /** JavaScript's `length` of a string: its UTF-16 code units, between one
      and two per character. */
  function Utf16Length(s: string): (r: nat)
    ensures |s| <= r <= 2 * |s|
  {
    if s == [] then 0 else Utf16Length(s[..|s| - 1]) + Utf16Units(s[|s| - 1])
  }

  /** Within the Basic Multilingual Plane, `length` counts characters. */
  lemma {:induction false} Utf16LengthBmp(s: string)
    requires forall i :: 0 <= i < |s| ==> s[i] as int < 0x10000
    ensures Utf16Length(s) == |s|
  {
    if s != [] {
      Utf16LengthBmp(s[..|s| - 1]);
    }
  }

  /** Leading white space removed: the result is a suffix of `s`, every
      dropped character is white space, the result does not start with
      white space, and it is empty exactly when `s` is blank. */
  function TrimStart(s: string): (r: string)
    ensures |r| <= |s| && r == s[|s| - |r|..]
    ensures forall i :: 0 <= i < |s| - |r| ==> IsJsSpace(s[i])
    ensures r != [] ==> !IsJsSpace(r[0])
    ensures r == [] <==> IsBlank(s)
  {
    if s != [] && IsJsSpace(s[0]) then TrimStart(s[1..]) else s
  }

  /** Trailing white space removed, symmetric to `TrimStart`. */
  function TrimEnd(s: string): (r: string)
    ensures |r| <= |s| && r == s[..|r|]
    ensures forall i :: |r| <= i < |s| ==> IsJsSpace(s[i])
    ensures r != [] ==> !IsJsSpace(r[|r| - 1])
    ensures r == [] <==> IsBlank(s)
  {
    if s != [] && IsJsSpace(s[|s| - 1]) then TrimEnd(s[..|s| - 1]) else s
  }

  /** `s.trim()`: a middle part of `s` that neither starts nor ends with
      white space; it is empty exactly when `s` is blank. */
  function Trim(s: string): (r: string)
    ensures |r| <= |s|
    ensures r != [] ==> !IsJsSpace(r[0]) && !IsJsSpace(r[|r| - 1])
    ensures r == [] <==> IsBlank(s)
  {
    var t := TrimStart(s);
    var r := TrimEnd(t);
    assert r != [] ==> r[0] == t[0];
    r
  }

  /** A string that neither starts nor ends with white space is its own trim. */
  lemma TrimOfTrimmed(s: string)
    requires s != [] ==> !IsJsSpace(s[0]) && !IsJsSpace(s[|s| - 1])
    ensures Trim(s) == s
  {
    if s != [] {
      TrimStartVisible(s);
      TrimEndVisible(s);
    }
  }

  /** Trimming is idempotent. */
  lemma TrimIdempotent(s: string)
    ensures Trim(Trim(s)) == Trim(s)
  {
    var r := Trim(s);
    if r != [] {
      TrimStartVisible(r);
      TrimEndVisible(r);
    }
  }

  function LowerChar(c: char): char {
    if 'A' <= c <= 'Z' then (c as int + 32) as char else c
  }

  function UpperChar(c: char): char {
    if 'a' <= c <= 'z' then (c as int - 32) as char else c
  }

  /** `s.toLowerCase()` on the ASCII letters. */
  function Lower(s: string): string {
    seq(|s|, i requires 0 <= i < |s| => LowerChar(s[i]))
  }

  /** `s.toUpperCase()` on the ASCII letters. */
  function Upper(s: string): string {
    seq(|s|, i requires 0 <= i < |s| => UpperChar(s[i]))
  }

  /** `a.toLowerCase() === b.toLowerCase()`. */
  predicate EqualsIgnoreCase(a: string, b: string) {
    Lower(a) == Lower(b)
  }

  lemma LowerConcat(a: string, b: string)
    ensures Lower(a + b) == Lower(a) + Lower(b)
  {
  }

  predicate IsPrefix(p: string, s: string) {
    |p| <= |s| && s[..|p|] == p
  }

  /** `s.startsWith(p)`. */
  predicate StartsWith(s: string, p: string) {
    IsPrefix(p, s)
  }

  /** `s.includes(t)`, searched from the left. */
  predicate Contains(s: string, t: string)
    decreases |s|
  {
    IsPrefix(t, s) || (s != [] && Contains(s[1..], t))
  }

  /** `t` occurs in `s` starting at position `i`. */
  predicate OccursAt(s: string, t: string, i: int) {
    0 <= i <= |s| - |t| && s[i..i + |t|] == t
  }

  /** `Contains` finds exactly the positions where `t` occurs in `s`. */
  lemma {:induction false} ContainsIff(s: string, t: string)
    ensures Contains(s, t) <==> exists i :: OccursAt(s, t, i)
  {
    if Contains(s, t) {
      var i := ContainsWitness(s, t);
    }
    if exists i :: OccursAt(s, t, i) {
      var i :| OccursAt(s, t, i);
      OccursContains(s, t, i);
    }
  }

  lemma {:induction false} ContainsWitness(s: string, t: string) returns (i: int)
    requires Contains(s, t)
    ensures OccursAt(s, t, i)
    decreases |s|
  {
    if IsPrefix(t, s) {
      i := 0;
    } else {
      var j := ContainsWitness(s[1..], t);
      assert s[j + 1..j + 1 + |t|] == s[1..][j..j + |t|];
      i := j + 1;
    }
  }

  lemma {:induction false} OccursContains(s: string, t: string, i: int)
    requires OccursAt(s, t, i)
    ensures Contains(s, t)
    decreases i
  {
    if i == 0 {
      assert IsPrefix(t, s);
    } else {
      assert s[1..][i - 1..i - 1 + |t|] == s[i..i + |t|];
      OccursContains(s[1..], t, i - 1);
    }
  }

  /** Every string contains the empty string (so an empty search term
      matches everything). */
  lemma ContainsEmpty(s: string)
    ensures Contains(s, "")
  {
  }

  /** `parts.join(sep)`. */
  function Join(parts: seq<string>, sep: string): string {
    if |parts| == 0 then ""
    else if |parts| == 1 then parts[0]
    else parts[0] + sep + Join(parts[1..], sep)
  }

  function IndexOf(s: string, c: char): (i: nat)
    requires c in s
    ensures i < |s| && s[i] == c && c !in s[..i]
  {
    if s[0] == c then 0 else 1 + IndexOf(s[1..], c)
  }

  /** `s.split(c)` for a one-character separator: at least one part, no part
      contains the separator, and joining the parts with it gives `s` back. */
  function Split(s: string, c: char): (r: seq<string>)
    ensures |r| >= 1
    ensures forall k :: 0 <= k < |r| ==> c !in r[k]
    ensures Join(r, [c]) == s
    decreases |s|
  {
    if c !in s then [s]
    else
      var i := IndexOf(s, c);
      var rest := Split(s[i + 1..], c);
      assert s == s[..i] + [c] + s[i + 1..];
      [s[..i]] + rest
  }

  /** Splitting a join of separator-free parts gives the parts back. */
  lemma {:induction false} SplitJoin(parts: seq<string>, c: char)
    requires |parts| >= 1
    requires forall k :: 0 <= k < |parts| ==> c !in parts[k]
    ensures Split(Join(parts, [c]), c) == parts
  {
    if |parts| == 1 {
    } else {
      var s := Join(parts, [c]);
      assert s == parts[0] + [c] + Join(parts[1..], [c]);
      SplitJoin(parts[1..], c);
      assert c in s by { assert s[|parts[0]|] == c; }
      assert s[..|parts[0]|] == parts[0];
      assert s[|parts[0]|] == c;
      var i := IndexOf(s, c);
      assert i == |parts[0]|;
      assert s[i + 1..] == Join(parts[1..], [c]);
      assert s[..i] == parts[0];
    }
  }

  predicate IsDigit(c: char) {
    '0' <= c <= '9'
  }

  function DigitChar(d: nat): char
    requires d < 10
  {
    ('0' as int + d) as char
  }

  function DigitValue(c: char): nat
    requires IsDigit(c)
  {
    c as int - '0' as int
  }

  predicate AllDigits(s: string) {
    forall i :: 0 <= i < |s| ==> IsDigit(s[i])
  }

  /** The decimal digits of a natural number, most significant first. */
  function NatText(n: nat): (r: string)
    ensures |r| >= 1 && AllDigits(r)
  {
    if n < 10 then [DigitChar(n)] else NatText(n / 10) + [DigitChar(n % 10)]
  }

  /** `String(n)` for an integer. */
  function IntText(n: int): (r: string)
    ensures |r| >= 1
  {
    if n < 0 then "-" + NatText(-n) else NatText(n)
  }

  /** The value of a digit string read most significant first. */
  function DigitsValue(ds: string): nat
    requires AllDigits(ds)
  {
    if ds == [] then 0 else DigitsValue(ds[..|ds| - 1]) * 10 + DigitValue(ds[|ds| - 1])
  }

  /** The longest prefix of `s` made of decimal digits. */
  function LeadingDigits(s: string): (r: string)
    ensures IsPrefix(r, s) && AllDigits(r)
    ensures |r| < |s| ==> !IsDigit(s[|r|])
  {
    if s != [] && IsDigit(s[0]) then [s[0]] + LeadingDigits(s[1..]) else []
  }

  /** `parseInt(s, 10)`: leading white space is skipped, one optional sign
      is read, then the longest run of digits; `None` stands for `NaN`
      (no digit at all). A `-0` result is 0 here. */
  function ParseInt(s: string): Option<int> {
    var t := TrimStart(s);
    var negative := t != [] && t[0] == '-';
    var body := if t != [] && (t[0] == '-' || t[0] == '+') then t[1..] else t;
    var ds := LeadingDigits(body);
    if ds == [] then None
    else if negative then Some(-(DigitsValue(ds) as int))
    else Some(DigitsValue(ds))
  }

  lemma {:induction false} NatTextValue(n: nat)
    ensures DigitsValue(NatText(n)) == n
  {
    if n >= 10 {
      NatTextValue(n / 10);
      var t := NatText(n);
      assert t[..|t| - 1] == NatText(n / 10);
    }
  }

  lemma {:induction false} LeadingDigitsAll(s: string)
    requires AllDigits(s)
    ensures LeadingDigits(s) == s
  {
    if s != [] {
      LeadingDigitsAll(s[1..]);
    }
  }

  /** A string without white space at the front reads from its first
      character, and one with no digit at the front (after an optional sign)
      is `NaN`. */
  lemma ParseIntNoDigits(s: string)
    requires s != [] && !IsJsSpace(s[0]) && !IsDigit(s[0]) && s[0] != '-' && s[0] != '+'
    ensures ParseInt(s) == None
  {
  }

  /** Text that starts with a visible character is not changed by
      `TrimStart`. */
  lemma TrimStartVisible(s: string)
    requires s != [] && !IsJsSpace(s[0])
    ensures TrimStart(s) == s
  {
  }

  /** Text that ends with a visible character is not changed by `TrimEnd`. */
  lemma TrimEndVisible(s: string)
    requires s != [] && !IsJsSpace(s[|s| - 1])
    ensures TrimEnd(s) == s
  {
  }

  /** A non-empty digit string reads as its value. */
  lemma ParseIntDigits(s: string, v: nat)
    requires s != [] && AllDigits(s) && DigitsValue(s) == v
    ensures ParseInt(s) == Some(v)
  {
    assert IsDigit(s[0]);
    TrimStartVisible(s);
    LeadingDigitsAll(s);
  }

  /** A minus sign before a non-empty digit string reads as the negated
      value. */
  lemma ParseIntMinus(d: string, v: nat)
    requires d != [] && AllDigits(d) && DigitsValue(d) == v
    ensures ParseInt("-" + d) == Some(-(v as int))
  {
    var s := "-" + d;
    assert s[0] == '-' && s[1..] == d;
    TrimStartVisible(s);
    LeadingDigitsAll(d);
  }

  lemma ParseIntNat(m: nat)
    ensures ParseInt(NatText(m)) == Some(m)
  {
    NatTextValue(m);
    ParseIntDigits(NatText(m), m);
  }

  lemma ParseIntNeg(n: int)
    requires n < 0
    ensures ParseInt(IntText(n)) == Some(n)
  {
    NatTextValue(-n);
    ParseIntMinus(NatText(-n), -n);
  }

  /** `parseInt(String(n), 10) === n`: the integer rendering and the parser
      agree on every integer. */
  lemma ParseIntText(n: int)
    ensures ParseInt(IntText(n)) == Some(n)
  {
    if n < 0 {
      ParseIntNeg(n);
    } else {
      ParseIntNat(n);
    }
  }

  function IsNonEmpty(): string -> bool {
    (t: string) => t != ""
  }

  predicate IsTrimmedPiece(t: string) {
    Trim(t) == t && ',' !in t
  }

  function TrimmedPiece(): string -> bool {
    (t: string) => IsTrimmedPiece(t)
  }

  /** `parts.map(f => f.trim())`. */
  function TrimAll(parts: seq<string>): (r: seq<string>)
    requires forall k :: 0 <= k < |parts| ==> ',' !in parts[k]
    ensures |r| == |parts|
    ensures forall k :: 0 <= k < |r| ==> r[k] == Trim(parts[k]) && IsTrimmedPiece(r[k])
  {
    seq(|parts|, i requires 0 <= i < |parts| =>
      TrimIdempotent(parts[i]);
      TrimInside(parts[i]);
      Trim(parts[i]))
  }

  /** `s.split(",").map(f => f.trim()).filter(Boolean)`: the comma-separated
      entries, trimmed, without the empty ones. */
  function SplitList(s: string): (r: seq<string>)
    ensures forall k :: 0 <= k < |r| ==> IsEntry(r[k])
  {
    var trimmed := TrimAll(Split(s, ','));
    FilterKeepsProperty(trimmed, IsNonEmpty(), TrimmedPiece());
    Filter(trimmed, IsNonEmpty())
  }

  /** Trimming only removes characters. */
  lemma TrimInside(s: string)
    ensures forall c :: c in Trim(s) ==> c in s
  {
    var t := TrimStart(s);
    assert forall c :: c in TrimEnd(t) ==> c in t;
    assert forall c :: c in t ==> c in s;
  }

  /** An entry, trimmed and non-empty. */
  predicate IsEntry(p: string) {
    p != "" && IsTrimmedPiece(p)
  }

  /** The parts of `parts.join(", ")` when split at the commas: every part
      after the first keeps the space that followed its comma. */
  function Spaced(parts: seq<string>): (r: seq<string>)
    ensures |r| == |parts|
  {
    seq(|parts|, i requires 0 <= i < |parts| => if i == 0 then parts[i] else " " + parts[i])
  }

  lemma {:induction false} JoinSpaced(parts: seq<string>)
    ensures Join(parts, ", ") == Join(Spaced(parts), ",")
  {
    if |parts| > 1 {
      JoinSpaced(parts[1..]);
      var t := Spaced(parts[1..]);
      var u := Spaced(parts);
      SpacedTail(parts);
      if |parts| == 2 {
        assert Join(u[1..], ",") == " " + parts[1];
      } else {
        JoinCons(" " + parts[1], t[1..], ",");
        JoinCons(parts[1], t[1..], ",");
      }
    }
  }

  lemma SpacedTail(parts: seq<string>)
    requires |parts| > 1
    ensures Spaced(parts)[0] == parts[0]
    ensures Spaced(parts)[1..] == [" " + parts[1]] + Spaced(parts[1..])[1..]
    ensures Spaced(parts[1..])[0] == parts[1]
  {
  }

  lemma JoinCons(head: string, rest: seq<string>, sep: string)
    requires rest != []
    ensures Join([head] + rest, sep) == head + sep + Join(rest, sep)
  {
    assert ([head] + rest)[1..] == rest;
  }

  /** A visible entry keeps its trim after a leading space. */
  lemma TrimSpaced(p: string)
    requires p != "" && Trim(p) == p
    ensures Trim(" " + p) == p
  {
    assert !IsJsSpace(p[0]) && !IsJsSpace(p[|p| - 1]);
    var q := " " + p;
    assert q[1..] == p;
    TrimStartVisible(p);
    assert TrimStart(q) == TrimStart(p) == p;
    TrimEndVisible(p);
  }

  lemma TrimSpacedAll(parts: seq<string>)
    requires forall k :: 0 <= k < |parts| ==> IsEntry(parts[k])
    ensures forall k :: 0 <= k < |parts| ==> ',' !in Spaced(parts)[k]
    ensures TrimAll(Spaced(parts)) == parts
  {
    var sp := Spaced(parts);
    forall k | 0 <= k < |sp| ensures ',' !in sp[k] && Trim(sp[k]) == parts[k] {
      SpacedEntry(parts, k);
    }
    var t := TrimAll(sp);
    assert forall k :: 0 <= k < |t| ==> t[k] == parts[k];
  }

  /** One part of `Spaced`: no comma, and its trim is the entry. */
  lemma SpacedEntry(parts: seq<string>, k: nat)
    requires k < |parts| && IsEntry(parts[k])
    ensures ',' !in Spaced(parts)[k]
    ensures Trim(Spaced(parts)[k]) == parts[k]
  {
    if k > 0 {
      var q := Spaced(parts)[k];
      assert q == " " + parts[k];
      assert forall c :: c in q ==> c == ' ' || c in parts[k];
      TrimSpaced(parts[k]);
    }
  }

  lemma SplitListEmpty()
    ensures SplitList("") == []
  {
    assert Split("", ',') == [""];
    var trimmed := TrimAll([""]);
    assert trimmed == [""];
    assert trimmed[..0] == [];
    assert Filter(trimmed, IsNonEmpty()) == Filter([], IsNonEmpty()) + [];
  }

  /** Splitting back what `join(", ")` produced gives the entries back:
      importing a features array and submitting the form round-trips it. */
  lemma SplitListJoin(parts: seq<string>)
    requires forall k :: 0 <= k < |parts| ==> IsEntry(parts[k])
    ensures SplitList(Join(parts, ", ")) == parts
  {
    if parts == [] {
      SplitListEmpty();
    } else {
      JoinSpaced(parts);
      TrimSpacedAll(parts);
      SplitJoin(Spaced(parts), ',');
      var trimmed := TrimAll(Split(Join(parts, ", "), ','));
      assert trimmed == parts;
      FilterAll(parts, IsNonEmpty());
    }
  }
}
