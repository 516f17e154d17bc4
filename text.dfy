/**
  The string operations the application applies: `toLowerCase`, `toUpperCase`
  of one character, `includes`, `substring(0, n)`, `trim`, `split(',')`,
  `join(', ')`, `replace(/_/g, ' ')` and number-to-string conversion.
  Case mapping covers Basic Latin and Latin-1, the letters of the
  application's Portuguese text.
 */
module Text {
  import Seqs

  /** The characters of `\s` and of `trim`: ECMAScript WhiteSpace and LineTerminator. */
  predicate IsSpace(c: char) {
    c == ' ' || c == '\t' || c == '\n' || c == '\r' || c == '\U{B}' || c == '\U{C}'
    || c == '\U{A0}' || c == '\U{1680}' || ('\U{2000}' <= c <= '\U{200A}')
    || c == '\U{2028}' || c == '\U{2029}' || c == '\U{202F}' || c == '\U{205F}'
    || c == '\U{3000}' || c == '\U{FEFF}'
  }

  /** `\w` of a regular expression without the `u` flag. */
  predicate IsWordChar(c: char) {
    ('a' <= c <= 'z') || ('A' <= c <= 'Z') || ('0' <= c <= '9') || c == '_'
  }

  predicate IsUpperLetter(c: char) {
    ('A' <= c <= 'Z') || ('\U{C0}' <= c <= '\U{DE}' && c != '\U{D7}')
  }

  predicate IsLowerLetter(c: char) {
    ('a' <= c <= 'z') || ('\U{E0}' <= c <= '\U{FE}' && c != '\U{F7}')
  }

  function LowerChar(c: char): (d: char)
    ensures !IsUpperLetter(d)
    ensures IsSpace(c) <==> IsSpace(d)
    ensures IsWordChar(d) ==> IsWordChar(c)
  {
    if IsUpperLetter(c) then (c as int + 32) as char else c
  }

  function UpperChar(c: char): (d: char)
    ensures !IsLowerLetter(d)
    ensures IsWordChar(c) <==> IsWordChar(d)
  {
    if IsLowerLetter(c) then (c as int - 32) as char else c
  }

  /** `s.toLowerCase()` */
  function Lower(s: string): (r: string)
    ensures |r| == |s|
    ensures forall i :: 0 <= i < |s| ==> r[i] == LowerChar(s[i])
  {
    seq(|s|, i requires 0 <= i < |s| => LowerChar(s[i]))
  }

  /** `s.charAt(0).toUpperCase() + s.slice(1)` */
  function Capitalize(s: string): (r: string)
    ensures |r| == |s|
    ensures s != [] ==> r[0] == UpperChar(s[0]) && r[1..] == s[1..]
  {
    if s == [] then [] else [UpperChar(s[0])] + s[1..]
  }

  /** `s.replace(/a/g, b)` for a single character `a` */
  function ReplaceChar(s: string, a: char, b: char): (r: string)
    ensures |r| == |s|
    ensures forall i :: 0 <= i < |s| ==> r[i] == (if s[i] == a then b else s[i])
  {
    seq(|s|, i requires 0 <= i < |s| => if s[i] == a then b else s[i])
  }

  /** `s.substring(0, n)` */
  function Take(s: string, n: nat): (r: string)
    ensures |r| == if |s| <= n then |s| else n
    ensures r <= s
  {
    if |s| <= n then s else s[..n]
  }

  /** `s.includes(t)` */
  predicate Contains(s: string, t: string)
    decreases |s|
  {
    t <= s || (s != [] && Contains(s[1..], t))
  }

  /** `t` occurs in `s` starting at position `i`. */
  predicate OccursAt(s: string, t: string, i: nat) {
    i + |t| <= |s| && s[i..i + |t|] == t
  }

  /** An occurrence of `t` in `s` is found by `includes`. */
  lemma {:induction false} OccursContains(s: string, t: string, i: nat)
    requires OccursAt(s, t, i)
    ensures Contains(s, t)
    decreases i
  {
    if i > 0 {
      assert OccursAt(s[1..], t, i - 1);
      OccursContains(s[1..], t, i - 1);
    }
  }

  /** `Contains` holds exactly when `t` occurs at some position of `s`. */
  lemma {:induction false} ContainsAt(s: string, t: string)
    ensures Contains(s, t) <==> exists i: nat :: OccursAt(s, t, i)
    decreases |s|
  {
    if exists i: nat :: OccursAt(s, t, i) {
      var i: nat :| OccursAt(s, t, i);
      OccursContains(s, t, i);
    }
    if Contains(s, t) {
      if t <= s {
        assert OccursAt(s, t, 0);
      } else {
        ContainsAt(s[1..], t);
        var i: nat :| OccursAt(s[1..], t, i);
        assert OccursAt(s, t, i + 1);
      }
    }
  }

  /** `s` with its leading white space removed. */
  function TrimStart(s: string): (r: string)
    ensures |r| <= |s|
    ensures r == [] || !IsSpace(r[0])
    ensures r == s[|s| - |r|..]
    ensures forall i :: 0 <= i < |s| - |r| ==> IsSpace(s[i])
  {
    if s != [] && IsSpace(s[0]) then TrimStart(s[1..]) else s
  }

  /** `s` with its trailing white space removed. */
  function TrimEnd(s: string): (r: string)
    ensures |r| <= |s|
    ensures r == [] || !IsSpace(r[|r| - 1])
    ensures r == s[..|r|]
    ensures forall i :: |r| <= i < |s| ==> IsSpace(s[i])
  {
    if s != [] && IsSpace(s[|s| - 1]) then TrimEnd(s[..|s| - 1]) else s
  }

  /** `s.trim()` */
  function Trim(s: string): (r: string) {
    TrimEnd(TrimStart(s))
  }

  /** `s.trim()` is empty exactly when `s` is all white space. */
  lemma TrimBlank(s: string)
    ensures Trim(s) == [] <==> forall i :: 0 <= i < |s| ==> IsSpace(s[i])
  {
    var t := TrimStart(s);
    if Trim(s) == [] {
      assert t == [];
    }
    if forall i :: 0 <= i < |s| ==> IsSpace(s[i]) {
      assert t == [];
    }
  }

  /**
    `s.trim()` is the slice of `s` that starts after its leading white space,
    and neither starts nor ends with white space.
   */
  lemma TrimSlice(s: string)
    ensures var a := |s| - |TrimStart(s)|;
      a + |Trim(s)| <= |s| && Trim(s) == s[a..a + |Trim(s)|]
    ensures Trim(s) != [] ==> !IsSpace(Trim(s)[0]) && !IsSpace(Trim(s)[|Trim(s)| - 1])
  {
    var t := TrimStart(s);
    if Trim(s) != [] {
      assert Trim(s)[0] == t[0];
    }
  }

  /** A string with no white space at either end is its own trim. */
  lemma TrimOfTrimmed(s: string)
    requires s == [] || (!IsSpace(s[0]) && !IsSpace(s[|s| - 1]))
    ensures Trim(s) == s
  {
  }

  /** Trimming " " + s, for a string that trims to itself, gives s back. */
  lemma TrimLeadingBlank(s: string)
    requires Trim(s) == s
    ensures Trim(" " + s) == s
  {
    TrimStartBlank(s);
    if s != [] {
      TrimStartOfTrimmed(s);
    }
  }

  /** A leading blank is skipped. */
  lemma TrimStartBlank(s: string)
    ensures TrimStart(" " + s) == TrimStart(s)
  {
    assert (" " + s)[1..] == s;
  }

  /** A string that trims to itself has no leading white space. */
  lemma TrimStartOfTrimmed(s: string)
    requires Trim(s) == s && s != []
    ensures TrimStart(s) == s
  {
    TrimSlice(s);
  }

  /** The index of the first `c` in `s`, or `|s|` when there is none. */
  function IndexOf(s: string, c: char): (i: nat)
    ensures i <= |s|
    ensures i < |s| ==> s[i] == c
    ensures forall j :: 0 <= j < i ==> s[j] != c
  {
    if s == [] then 0 else if s[0] == c then 0 else 1 + IndexOf(s[1..], c)
  }

  /** `s.split(c)` for a one-character separator. */
  function Split(s: string, c: char): (parts: seq<string>)
    ensures |parts| >= 1
    decreases |s|
  {
    var i := IndexOf(s, c);
    if i == |s| then [s] else [s[..i]] + Split(s[i + 1..], c)
  }

  /** `parts.join(sep)` */
  function Join(parts: seq<string>, sep: string): string {
    if parts == [] then ""
    else if |parts| == 1 then parts[0]
    else parts[0] + sep + Join(parts[1..], sep)
  }

  /** Each string with a blank in front: the pieces `split(',')` finds after the first comma of `join(', ')`. */
  function Prefixed(items: seq<string>): (r: seq<string>)
    ensures |r| == |items|
    ensures forall k :: 0 <= k < |items| ==> r[k] == " " + items[k]
  {
    seq(|items|, k requires 0 <= k < |items| => " " + items[k])
  }

  /** The pieces `split(',')` finds in `join(', ')`: every piece but the first keeps the blank. */
  function Blanked(items: seq<string>): (r: seq<string>)
    requires items != []
    ensures |r| == |items| && r[0] == items[0]
    ensures forall k :: 1 <= k < |items| ==> r[k] == " " + items[k]
  {
    [items[0]] + Prefixed(items[1..])
  }

  /** Splitting a `', '`-joined list of comma-free strings on `','` finds each one, after the first with its blank. */
  lemma SplitJoin(items: seq<string>)
    requires items != []
    requires forall k :: 0 <= k < |items| ==> ',' !in items[k]
    ensures Split(Join(items, ", "), ',') == Blanked(items)
  {
    var x := items[0];
    IndexOfAbsent(x, ',');
    if |items| == 1 {
      assert Join(items, ", ") == x;
      assert Blanked(items) == [x];
    } else {
      var rest := Join(items[1..], ", ");
      Seqs.AppendAssoc(x, ", ", rest);
      SplitFirst(x, rest);
      SplitJoinBlank(items[1..]);
    }
  }

  /** The same with a blank in front of the joined list: every piece keeps a blank. */
  lemma {:induction false} SplitJoinBlank(items: seq<string>)
    requires items != []
    requires forall k :: 0 <= k < |items| ==> ',' !in items[k]
    ensures Split(" " + Join(items, ", "), ',') == Prefixed(items)
    decreases |items|
  {
    var x := items[0];
    var bx := " " + x;
    assert ',' !in bx;
    IndexOfAbsent(bx, ',');
    if |items| == 1 {
      assert Join(items, ", ") == x;
      assert Prefixed(items) == [bx];
    } else {
      var rest := Join(items[1..], ", ");
      Seqs.AppendAssoc(x, ", ", rest);
      Seqs.AppendAssoc(" ", x, ", " + rest);
      SplitFirst(bx, rest);
      SplitJoinBlank(items[1..]);
      PrefixedCons(items);
    }
  }

  /** Prefixing a list is prefixing its first item, then the rest. */
  lemma PrefixedCons(items: seq<string>)
    requires items != []
    ensures Prefixed(items) == [" " + items[0]] + Prefixed(items[1..])
  {
  }

  /** Splitting `x + ", " + rest`, with no comma in `x`, finds `x` and then the pieces of `" " + rest`. */
  lemma SplitFirst(x: string, rest: string)
    requires IndexOf(x, ',') == |x|
    ensures Split(x + (", " + rest), ',') == [x] + Split(" " + rest, ',')
  {
    var s := x + (", " + rest);
    IndexOfComma(x, rest);
    AfterComma(x, rest);
    assert s[..|x|] == x;
  }

  /** The first comma of `x + ", " + rest` is the one after `x`. */
  lemma IndexOfComma(x: string, rest: string)
    requires IndexOf(x, ',') == |x|
    ensures IndexOf(x + (", " + rest), ',') == |x|
  {
    var u := ", " + rest;
    assert u[0] == ',';
    IndexOfPrefix(x, u, ',');
  }

  /** What follows the comma after `x` in `x + ", " + rest`. */
  lemma AfterComma(x: string, rest: string)
    ensures (x + (", " + rest))[|x| + 1..] == " " + rest
  {
    var u := ", " + rest;
    assert u[1..] == " " + rest;
    assert (x + u)[|x| + 1..] == u[1..];
  }

  /** A string without the character has no index of it. */
  lemma {:induction false} IndexOfAbsent(s: string, c: char)
    requires c !in s
    ensures IndexOf(s, c) == |s|
    decreases |s|
  {
    if s != [] {
      assert s == [s[0]] + s[1..];
      IndexOfAbsent(s[1..], c);
    }
  }

  /** `IndexOf` in a concatenation whose first part lacks the character. */
  lemma {:induction false} IndexOfPrefix(a: string, b: string, c: char)
    requires IndexOf(a, c) == |a|
    ensures IndexOf(a + b, c) == |a| + IndexOf(b, c)
    decreases |a|
  {
    if a != [] {
      assert (a + b)[1..] == a[1..] + b;
      IndexOfPrefix(a[1..], b, c);
    } else {
      assert a + b == b;
    }
  }

  /** Code-point order of strings: a prefix comes first, otherwise the first differing character decides. */
  predicate StrLe(a: string, b: string)
    decreases |a|
  {
    a == [] || (b != [] && (a[0] < b[0] || (a[0] == b[0] && StrLe(a[1..], b[1..]))))
  }

  /** Any two strings are ordered one way or the other. */
  lemma {:induction false} StrLeTotal(a: string, b: string)
    ensures StrLe(a, b) || StrLe(b, a)
    decreases |a|
  {
    if a != [] && b != [] && a[0] == b[0] {
      StrLeTotal(a[1..], b[1..]);
    }
  }

  /** The string order is transitive. */
  lemma {:induction false} StrLeTrans(a: string, b: string, c: string)
    requires StrLe(a, b) && StrLe(b, c)
    ensures StrLe(a, c)
    decreases |a|
  {
    if a != [] && b != [] && c != [] && a[0] == b[0] && b[0] == c[0] {
      StrLeTrans(a[1..], b[1..], c[1..]);
    }
  }

  /** The decimal digit of `d`. */
  function Digit(d: nat): char
    requires d < 10
  {
    ['0', '1', '2', '3', '4', '5', '6', '7', '8', '9'][d]
  }

  /** `String(n)` for a natural number. */
  function NatToString(n: nat): (s: string)
    ensures |s| >= 1
    decreases n
  {
    if n < 10 then [Digit(n)] else NatToString(n / 10) + [Digit(n % 10)]
  }

  /** Distinct numbers have distinct decimal strings. */
  lemma {:induction false} NatToStringInjective(j: nat, k: nat)
    requires NatToString(j) == NatToString(k)
    ensures j == k
    decreases j
  {
    var s := NatToString(j);
    if j < 10 && k < 10 {
      assert s[0] == Digit(j) && s[0] == Digit(k);
      DigitInjective(j, k);
    } else if j >= 10 && k >= 10 {
      var a, b := NatToString(j / 10), NatToString(k / 10);
      assert a == s[..|s| - 1] && b == s[..|s| - 1];
      DigitInjective(j % 10, k % 10);
      NatToStringInjective(j / 10, k / 10);
    }
  }

  lemma DigitInjective(a: nat, b: nat)
    requires a < 10 && b < 10 && Digit(a) == Digit(b)
    ensures a == b
  {
  }

  /** `String(n)` for an integer. */
  function IntToString(n: int): string {
    if n < 0 then "-" + NatToString(-n) else NatToString(n)
  }
}
