/** The Go string operations the roster pipeline relies on.

    A Go string is a sequence of bytes. Here a `string` stands for it with one `char`
    per byte, so a multi-byte UTF-8 character (the online glyph, for one) is several
    chars, and slicing by byte offsets (`line[len(line)-2:]`) means the same thing. */
module Text {

  datatype Option<+T> = None | Some(value: T)

  /** The one-byte white space of `unicode.IsSpace`: tab, line feed, vertical tab, form
      feed, carriage return and space. */
  predicate IsSpace(c: char) {
    c == ' ' || c == '\t' || c == '\n' || c == '\U{000B}' || c == '\U{000C}' || c == '\r'
  }

  /** The two-byte UTF-8 white space: U+0085 and U+00A0. */
  predicate WideSpace2(a: char, b: char) {
    a == '\U{C2}' && (b == '\U{85}' || b == '\U{A0}')
  }

  /** The three-byte UTF-8 white space: U+1680, U+2000 to U+200A, U+2028, U+2029, U+202F,
      U+205F and U+3000. */
  predicate WideSpace3(a: char, b: char, c: char) {
    (a == '\U{E1}' && b == '\U{9A}' && c == '\U{80}')
    || (a == '\U{E2}' && b == '\U{80}'
        && (('\U{80}' <= c <= '\U{8A}') || c == '\U{A8}' || c == '\U{A9}' || c == '\U{AF}'))
    || (a == '\U{E2}' && b == '\U{81}' && c == '\U{9F}')
    || (a == '\U{E3}' && b == '\U{80}' && c == '\U{80}')
  }

  /** The byte length of the white-space character `s` starts with, 0 when it starts with
      none (what `utf8.DecodeRuneInString` and `unicode.IsSpace` decide together). */
  function LeadSpace(s: string): (n: nat)
    ensures n <= |s|
  {
    if |s| >= 1 && IsSpace(s[0]) then 1
    else if |s| >= 2 && WideSpace2(s[0], s[1]) then 2
    else if |s| >= 3 && WideSpace3(s[0], s[1], s[2]) then 3
    else 0
  }

  /** The byte length of the white-space character `s` ends with, 0 when it ends with none
      (what `utf8.DecodeLastRuneInString` and `unicode.IsSpace` decide together). */
  function TailSpace(s: string): (n: nat)
    ensures n <= |s|
  {
    var k := |s|;
    if k >= 1 && IsSpace(s[k - 1]) then 1
    else if k >= 2 && WideSpace2(s[k - 2], s[k - 1]) then 2
    else if k >= 3 && WideSpace3(s[k - 3], s[k - 2], s[k - 1]) then 3
    else 0
  }

  /** `strings.TrimLeftFunc(s, unicode.IsSpace)`. */
  function TrimLeft(s: string): string
    decreases |s|
  {
    if LeadSpace(s) > 0 then TrimLeft(s[LeadSpace(s)..]) else s
  }

  /** `strings.TrimRightFunc(s, unicode.IsSpace)`. */
  function TrimRight(s: string): string
    decreases |s|
  {
    if TailSpace(s) > 0 then TrimRight(s[..|s| - TailSpace(s)]) else s
  }

  /** `strings.TrimSpace`: leading, then trailing white space is dropped, one-byte and
      multi-byte alike. */
  function TrimSpace(s: string): string {
    TrimRight(TrimLeft(s))
  }

  /** Trimming the left end leaves a suffix that starts with no white space. */
  lemma {:induction false} TrimLeftSpec(s: string)
    ensures var r := TrimLeft(s);
      LeadSpace(r) == 0 && |r| <= |s| && r == s[|s| - |r|..]
    decreases |s|
  {
    var n := LeadSpace(s);
    if n > 0 {
      TrimLeftSpec(s[n..]);
      var r := TrimLeft(s[n..]);
      assert s[n..][|s[n..]| - |r|..] == s[|s| - |r|..];
    }
  }

  /** Trimming the right end leaves a prefix that ends with no white space. */
  lemma {:induction false} TrimRightSpec(s: string)
    ensures var r := TrimRight(s);
      TailSpace(r) == 0 && |r| <= |s| && r == s[..|r|]
    decreases |s|
  {
    var n := TailSpace(s);
    if n > 0 {
      TrimRightSpec(s[..|s| - n]);
      var r := TrimRight(s[..|s| - n]);
      assert s[..|s| - n][..|r|] == s[..|r|];
    }
  }

  /** A prefix of a string that starts with no white space starts with none either. */
  lemma LeadSpacePrefix(s: string, r: string)
    requires LeadSpace(s) == 0 && |r| <= |s| && r == s[..|r|]
    ensures LeadSpace(r) == 0
  {
    if |r| >= 1 {
      assert r[0] == s[0];
    }
    if |r| >= 2 {
      assert r[1] == s[1];
    }
    if |r| >= 3 {
      assert r[2] == s[2];
    }
  }

  /** The trim neither starts nor ends with white space. */
  lemma TrimSpaceSpec(s: string)
    ensures LeadSpace(TrimSpace(s)) == 0 && TailSpace(TrimSpace(s)) == 0
  {
    var t := TrimLeft(s);
    TrimLeftSpec(s);
    TrimRightSpec(t);
    LeadSpacePrefix(t, TrimRight(t));
  }

  /** A string that neither starts nor ends with white space is its own trim. */
  lemma TrimSpaceOfTrimmed(s: string)
    requires LeadSpace(s) == 0 && TailSpace(s) == 0
    ensures TrimSpace(s) == s
  {
  }

  /** A string whose first byte is a non-blank ASCII byte starts with no white space. */
  lemma AsciiLead(s: string)
    requires s != [] && s[0] < '\U{80}' && !IsSpace(s[0])
    ensures LeadSpace(s) == 0
  {
  }

  /** A string whose last byte is a non-blank ASCII byte ends with no white space. */
  lemma AsciiTail(s: string)
    requires s != [] && s[|s| - 1] < '\U{80}' && !IsSpace(s[|s| - 1])
    ensures TailSpace(s) == 0
  {
  }

  /** Text after an ASCII byte cannot continue a white-space character, so a non-empty
      string that starts with none still starts with none when more follows. */
  lemma LeadSpaceConcat(a: string, b: string)
    requires a != [] && LeadSpace(a) == 0 && (b == [] || b[0] < '\U{80}')
    ensures LeadSpace(a + b) == 0
  {
    var s := a + b;
    assert s[0] == a[0];
    if |a| >= 2 {
      assert s[1] == a[1];
    }
    if |a| >= 3 {
      assert s[2] == a[2];
    }
  }

  /** An ASCII byte cannot be inside a white-space character, so a non-empty string that
      ends with none still ends with none when it follows an ASCII byte. */
  lemma TailSpaceConcat(a: string, b: string)
    requires b != [] && TailSpace(b) == 0 && (a == [] || a[|a| - 1] < '\U{80}')
    ensures TailSpace(a + b) == 0
  {
    var s, k, m := a + b, |a + b|, |b|;
    assert s[k - 1] == b[m - 1];
    if m >= 2 {
      assert s[k - 2] == b[m - 2];
    }
    if m >= 3 {
      assert s[k - 3] == b[m - 3];
    }
  }

  /** `sub` occurs in `s` starting at byte `i`. */
  predicate InfixAt(s: string, sub: string, i: int) {
    0 <= i && i + |sub| <= |s| && s[i..i + |sub|] == sub
  }

  predicate StartsWith(s: string, prefix: string) {
    |prefix| <= |s| && s[..|prefix|] == prefix
  }

  predicate EndsWith(s: string, suffix: string) {
    |suffix| <= |s| && s[|s| - |suffix|..] == suffix
  }

  /** `strings.Contains`. */
  predicate Contains(s: string, sub: string) {
    exists i | 0 <= i <= |s| - |sub| :: InfixAt(s, sub, i)
  }

  /** `strings.Split(s, string(sep))`: the pieces between separators, always at least one. */
  function Split(s: string, sep: char): (r: seq<string>)
    ensures |r| >= 1
    ensures forall k :: 0 <= k < |r| ==> sep !in r[k]
  {
    if s == [] then [[]]
    else
      var rest := Split(s[1..], sep);
      if s[0] == sep then [[]] + rest else [[s[0]] + rest[0]] + rest[1..]
  }

  /** The pieces joined back with `sep` between them, as a `strings.Builder` grows them. */
  function Join(pieces: seq<string>, sep: char): string {
    if |pieces| == 0 then []
    else if |pieces| == 1 then pieces[0]
    else Join(pieces[..|pieces| - 1], sep) + [sep] + pieces[|pieces| - 1]
  }

  lemma {:induction false} SplitNoSeparator(s: string, sep: char)
    requires sep !in s
    ensures Split(s, sep) == [s]
  {
    if s != [] {
      SplitNoSeparator(s[1..], sep);
      assert [s[0]] + s[1..] == s;
    }
  }

  lemma {:induction false} SplitSnoc(a: string, sep: char, b: string)
    requires sep !in b
    ensures Split(a + [sep] + b, sep) == Split(a, sep) + [b]
  {
    if a == [] {
      assert a + [sep] + b == [sep] + b;
      assert ([sep] + b)[1..] == b;
      SplitNoSeparator(b, sep);
    } else {
      assert (a + [sep] + b)[1..] == a[1..] + [sep] + b;
      SplitSnoc(a[1..], sep, b);
    }
  }

  /** Splitting undoes joining when no piece holds the separator. */
  lemma {:induction false} SplitJoin(pieces: seq<string>, sep: char)
    requires |pieces| >= 1
    requires forall k :: 0 <= k < |pieces| ==> sep !in pieces[k]
    ensures Split(Join(pieces, sep), sep) == pieces
  {
    if |pieces| == 1 {
      SplitNoSeparator(pieces[0], sep);
    } else {
      var init := pieces[..|pieces| - 1];
      SplitJoin(init, sep);
      SplitSnoc(Join(init, sep), sep, pieces[|pieces| - 1]);
      assert init + [pieces[|pieces| - 1]] == pieces;
    }
  }

  function IndexFrom(s: string, sub: string, i: nat): (r: int)
    requires i <= |s|
    ensures r == -1 || (i <= r && InfixAt(s, sub, r))
    ensures forall j :: i <= j && (r == -1 || j < r) ==> !InfixAt(s, sub, j)
    decreases |s| - i
  {
    if i + |sub| > |s| then -1
    else if s[i..i + |sub|] == sub then i
    else if i == |s| then -1
    else IndexFrom(s, sub, i + 1)
  }

  /** `strings.Index`: the first byte offset of `sub` in `s`, or -1. */
  function Index(s: string, sub: string): (r: int)
    ensures r >= 0 <==> Contains(s, sub)
    ensures r >= 0 ==> InfixAt(s, sub, r) && forall j :: 0 <= j < r ==> !InfixAt(s, sub, j)
    ensures r < 0 ==> r == -1
  {
    IndexFrom(s, sub, 0)
  }

  /** The first occurrence of a one-byte string is right after a prefix that lacks it. */
  lemma IndexAfter(a: string, c: char, b: string)
    requires c !in a
    ensures Index(a + [c] + b, [c]) == |a|
  {
    var s := a + [c] + b;
    assert InfixAt(s, [c], |a|);
    forall j | 0 <= j < |a|
      ensures !InfixAt(s, [c], j)
    {
      assert s[j] == a[j];
    }
  }

  function Lower(c: char): char {
    if 'A' <= c <= 'Z' then (c as int + 32) as char else c
  }

  /** `strings.ToLower` on ASCII letters; every other byte is kept. */
  function ToLower(s: string): (r: string)
    ensures |r| == |s| && forall i :: 0 <= i < |s| ==> r[i] == Lower(s[i])
  {
    seq(|s|, i requires 0 <= i < |s| => Lower(s[i]))
  }

  /** `strings.EqualFold`, ASCII case folding. */
  predicate EqualFold(a: string, b: string) {
    ToLower(a) == ToLower(b)
  }

  /** Go's `<` on strings: byte-wise lexicographic order. */
  predicate LexLess(a: string, b: string) {
    if a == [] then b != []
    else if b == [] then false
    else if a[0] != b[0] then a[0] < b[0]
    else LexLess(a[1..], b[1..])
  }

  lemma {:induction false} LexLessIrreflexive(a: string)
    ensures !LexLess(a, a)
  {
    if a != [] {
      LexLessIrreflexive(a[1..]);
    }
  }

  lemma {:induction false} LexLessTransitive(a: string, b: string, c: string)
    requires LexLess(a, b) && LexLess(b, c)
    ensures LexLess(a, c)
  {
    if a != [] && b != [] && c != [] && a[0] == b[0] == c[0] {
      LexLessTransitive(a[1..], b[1..], c[1..]);
    }
  }

  lemma {:induction false} LexLessTotal(a: string, b: string)
    ensures a == b || LexLess(a, b) || LexLess(b, a)
  {
    if a != [] && b != [] && a[0] == b[0] {
      LexLessTotal(a[1..], b[1..]);
      if a[1..] == b[1..] {
        assert a == [a[0]] + a[1..] && b == [b[0]] + b[1..];
      }
    }
  }

  /** Every byte is below 0x80. */
  predicate IsAscii(s: string) {
    forall i :: 0 <= i < |s| ==> s[i] < '\U{80}'
  }

  /** A string made of ASCII bytes cannot hold a string that starts with a non-ASCII byte. */
  lemma AsciiExcludes(s: string, sub: string)
    requires IsAscii(s)
    requires sub != [] && sub[0] >= '\U{80}'
    ensures !Contains(s, sub)
  {
  }
}
