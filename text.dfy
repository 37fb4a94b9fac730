/** The string operations the source calls on JavaScript strings:
    `toLowerCase`, `includes`, `trim`, `split(",")`, `join`, `startsWith`,
    decimal rendering with `padStart`, `Number` of a digit string and the
    code-unit order used by `sort`. */
module Text {

  predicate IsDigit(c: char) { '0' <= c <= '9' }

  function DigitValue(c: char): (d: nat)
    requires IsDigit(c)
    ensures d < 10
  {
    (c as int) - ('0' as int)
  }

  function DigitChar(d: nat): (c: char)
    requires d < 10
    ensures IsDigit(c) && DigitValue(c) == d
  {
    (('0' as int) + d) as char
  }

  predicate AllDigits(s: string) {
    forall i :: 0 <= i < |s| ==> IsDigit(s[i])
  }

  /** `toLowerCase` on one character. Only the ASCII letters are mapped. */
  function LowerChar(c: char): char {
    if 'A' <= c <= 'Z' then ((c as int) + 32) as char else c
  }

  function Lower(s: string): (r: string)
    ensures |r| == |s|
    ensures forall i :: 0 <= i < |s| ==> r[i] == LowerChar(s[i])
  {
    seq(|s|, i requires 0 <= i < |s| => LowerChar(s[i]))
  }

  lemma LowerIdempotent(s: string)
    ensures Lower(Lower(s)) == Lower(s)
  {
  }

  // ---------------------------------------------------------------------
  // includes / startsWith

  predicate OccursAt(hay: string, needle: string, i: int) {
    0 <= i && i + |needle| <= |hay| && hay[i..i + |needle|] == needle
  }

  /** `hay.includes(needle)`. */
  predicate Contains(hay: string, needle: string) {
    exists i | 0 <= i <= |hay| - |needle| :: OccursAt(hay, needle, i)
  }

  /** `s.startsWith(prefix)`. */
  predicate StartsWith(s: string, prefix: string) {
    |prefix| <= |s| && s[..|prefix|] == prefix
  }

  lemma ContainsEmptyNeedle(hay: string)
    ensures Contains(hay, "")
  {
    assert OccursAt(hay, "", 0);
  }

  lemma EmptyHayContainsOnlyEmpty(needle: string)
    requires |needle| > 0
    ensures !Contains("", needle)
  {
  }

  /** A prefix of `hay` is contained in it. */
  lemma ContainsPrefix(hay: string, n: nat)
    requires n <= |hay|
    ensures Contains(hay, hay[..n])
  {
    assert OccursAt(hay, hay[..n], 0);
  }

  // ---------------------------------------------------------------------
  // Whitespace and trim

  /** JavaScript's WhiteSpace and LineTerminator code points: the set both
      `\s` in a regular expression and `String.prototype.trim` use. */
  predicate IsSpace(c: char) {
    c == '\t' || c == '\n' || c == '\U{000B}' || c == '\U{000C}' || c == '\r' ||
    c == ' ' || c == '\U{00A0}' || c == '\U{1680}' || ('\U{2000}' <= c <= '\U{200A}') ||
    c == '\U{2028}' || c == '\U{2029}' || c == '\U{202F}' || c == '\U{205F}' ||
    c == '\U{3000}' || c == '\U{FEFF}'
  }

  predicate IsTrimmed(s: string) {
    s == [] || (!IsSpace(s[0]) && !IsSpace(s[|s| - 1]))
  }

  predicate AllSpace(s: string) {
    forall i :: 0 <= i < |s| ==> IsSpace(s[i])
  }

  /** The number of whitespace characters `s` starts with. */
  function LeadingSpaces(s: string): (n: nat)
    ensures n <= |s| && AllSpace(s[..n]) && (n < |s| ==> !IsSpace(s[n]))
    decreases |s|
  {
    if |s| > 0 && IsSpace(s[0]) then
      var k := LeadingSpaces(s[1..]);
      assert s[..k + 1] == [s[0]] + s[1..][..k];
      k + 1
    else 0
  }

  /** The number of whitespace characters `s` ends with. */
  function TrailingSpaces(s: string): (n: nat)
    ensures n <= |s| && AllSpace(s[|s| - n..]) && (n < |s| ==> !IsSpace(s[|s| - n - 1]))
    decreases |s|
  {
    if |s| > 0 && IsSpace(s[|s| - 1]) then
      var init := s[..|s| - 1];
      var k := TrailingSpaces(init);
      assert s[|s| - (k + 1)..] == init[|init| - k..] + [s[|s| - 1]];
      k + 1
    else 0
  }

  function TrimStart(s: string): (r: string)
    ensures r == [] || !IsSpace(r[0])
  {
    s[LeadingSpaces(s)..]
  }

  function TrimEnd(s: string): (r: string)
    ensures r == [] || !IsSpace(r[|r| - 1])
  {
    s[..|s| - TrailingSpaces(s)]
  }

  /** `String.prototype.trim`: `s` without its leading and trailing
      whitespace, which is all it removes. */
  function Trim(s: string): (r: string)
    ensures IsTrimmed(r)
    ensures |r| <= |s|
  {
    TrimEnd(TrimStart(s))
  }

  /** What `trim` removes is whitespace on either side of the result. */
  lemma TrimInfix(s: string)
    ensures exists i :: 0 <= i <= |s| - |Trim(s)| && Trim(s) == s[i..i + |Trim(s)|] &&
                        AllSpace(s[..i]) && AllSpace(s[i + |Trim(s)|..])
  {
    TrimWindow(s, LeadingSpaces(s), |Trim(s)|);
  }

  /** `trim` keeps the window after the leading whitespace. */
  lemma TrimWindow(s: string, i: nat, n: nat)
    requires i == LeadingSpaces(s) && n == |Trim(s)|
    ensures i + n <= |s| && Trim(s) == s[i..i + n] && AllSpace(s[..i]) && AllSpace(s[i + n..])
  {
    var t := s[i..];
    var r := t[..n];
    assert Trim(s) == r;
    WindowOfSuffix(s, t, r, i);
    assert AllSpace(t[n..]);
  }

  /** A prefix of a suffix is a slice. */
  lemma WindowOfSuffix<T>(s: seq<T>, t: seq<T>, r: seq<T>, i: nat)
    requires i <= |s| && t == s[i..] && |r| <= |t| && r == t[..|r|]
    ensures i + |r| <= |s| && r == s[i..i + |r|] && t[|r|..] == s[i + |r|..]
  {
  }

  /** `trim` only removes characters. */
  lemma TrimKeepsChars(s: string, c: char)
    requires c in Trim(s)
    ensures c in s
  {
    var t := TrimStart(s);
    var r := TrimEnd(t);
    var k :| 0 <= k < |r| && r[k] == c;
    assert t[k] == c;
    assert s[|s| - |t| + k] == c;
  }

  lemma {:induction false} TrimStartOfNonSpace(s: string)
    requires s == [] || !IsSpace(s[0])
    ensures TrimStart(s) == s
  {
  }

  lemma {:induction false} TrimEndOfNonSpace(s: string)
    requires s == [] || !IsSpace(s[|s| - 1])
    ensures TrimEnd(s) == s
  {
  }

  /** Trimming a string that is already trimmed changes nothing. */
  lemma TrimOfTrimmed(s: string)
    requires IsTrimmed(s)
    ensures Trim(s) == s
  {
    TrimStartOfNonSpace(s);
    TrimEndOfNonSpace(s);
  }

  /** A leading whitespace character does not survive `trim`. */
  lemma TrimLeadingSpace(c: char, s: string)
    requires IsSpace(c)
    ensures Trim([c] + s) == Trim(s)
  {
    assert ([c] + s)[1..] == s;
  }

  // ---------------------------------------------------------------------
  // split and join

  /** `s.split(sep)` for a one-character separator: always at least one
      part, and no part contains the separator. */
  function Split(s: string, sep: char): (r: seq<string>)
    ensures |r| >= 1
    ensures forall k :: 0 <= k < |r| ==> sep !in r[k]
    decreases |s|
  {
    if s == [] then [""]
    else
      var rest := Split(s[1..], sep);
      if s[0] == sep then [""] + rest
      else [[s[0]] + rest[0]] + rest[1..]
  }

  /** `xs.join(sep)`. */
  function Join(xs: seq<string>, sep: string): string
    decreases |xs|
  {
    if |xs| == 0 then ""
    else if |xs| == 1 then xs[0]
    else xs[0] + sep + Join(xs[1..], sep)
  }

  /** `.map(x => x.trim()).filter(Boolean)`: trim every part, drop the empty ones. */
  function TrimParts(parts: seq<string>): seq<string>
    decreases |parts|
  {
    if parts == [] then []
    else
      var t := Trim(parts[0]);
      if t == "" then TrimParts(parts[1..]) else [t] + TrimParts(parts[1..])
  }

  /** `text.split(",").map(x => x.trim()).filter(Boolean)`: the comma
      list parser of the product and zone forms. Every item it returns is
      trimmed, non-empty and free of commas. */
  function ParseCommaList(text: string): (r: seq<string>)
    ensures CleanItems(r)
  {
    TrimPartsClean(Split(text, ','));
    TrimParts(Split(text, ','))
  }

  lemma {:induction false} TrimPartsClean(parts: seq<string>)
    requires forall k :: 0 <= k < |parts| ==> ',' !in parts[k]
    ensures CleanItems(TrimParts(parts))
    decreases |parts|
  {
    if parts != [] {
      TrimPartsClean(parts[1..]);
      var t := Trim(parts[0]);
      var rest := TrimParts(parts[1..]);
      if t != "" {
        assert ',' !in t by {
          if ',' in t {
            TrimKeepsChars(parts[0], ',');
          }
        }
        assert TrimParts(parts) == [t] + rest;
        forall k | 0 <= k < |[t] + rest|
          ensures ([t] + rest)[k] != "" && IsTrimmed(([t] + rest)[k]) && ',' !in ([t] + rest)[k]
        {
          if k > 0 {
            assert ([t] + rest)[k] == rest[k - 1];
          }
        }
      }
    }
  }

  /** Items whose list is well formed: what the forms produce and accept back. */
  predicate CleanItems(xs: seq<string>) {
    forall k :: 0 <= k < |xs| ==> xs[k] != "" && IsTrimmed(xs[k]) && ',' !in xs[k]
  }

  lemma {:induction false} SplitCommaFree(x: string, t: string, sep: char)
    requires sep !in x
    ensures Split(x + t, sep) == [x + Split(t, sep)[0]] + Split(t, sep)[1..]
    decreases |x|
  {
    if x != [] {
      assert (x + t)[1..] == x[1..] + t;
      SplitCommaFree(x[1..], t, sep);
      assert [x[0]] + (x[1..] + Split(t, sep)[0]) == x + Split(t, sep)[0];
    } else {
      assert x + t == t;
      var p := Split(t, sep);
      assert p == [p[0]] + p[1..];
      assert x + p[0] == p[0];
    }
  }

  lemma {:induction false} SplitAtSeparator(x: string, rest: string, sep: char)
    requires sep !in x
    ensures Split(x + [sep] + rest, sep) == [x] + Split(rest, sep)
  {
    assert x + [sep] + rest == x + ([sep] + rest);
    SplitCommaFree(x, [sep] + rest, sep);
    assert ([sep] + rest)[1..] == rest;
    assert x + "" == x;
  }

  lemma {:induction false} TrimPartsAppend(a: seq<string>, b: seq<string>)
    ensures TrimParts(a + b) == TrimParts(a) + TrimParts(b)
    decreases |a|
  {
    if a == [] {
      assert a + b == b;
    } else {
      assert (a + b)[1..] == a[1..] + b;
      TrimPartsAppend(a[1..], b);
    }
  }

  lemma TrimSpacePrefix(x: string)
    ensures Trim(" " + x) == Trim(x)
  {
    TrimLeadingSpace(' ', x);
  }

  /** Only the trimmed form of the first part matters to `TrimParts`. */
  lemma TrimPartsSameHead(a: seq<string>, b: seq<string>)
    requires a != [] && b != [] && Trim(a[0]) == Trim(b[0]) && a[1..] == b[1..]
    ensures TrimParts(a) == TrimParts(b)
  {
  }

  /** A space after a comma (as `join(", ")` writes it) is ignored by the parser. */
  lemma LeadingSpaceIgnored(rest: string)
    ensures ParseCommaList(" " + rest) == ParseCommaList(rest)
  {
    var p := Split(rest, ',');
    SplitCommaFree(" ", rest, ',');
    TrimSpacePrefix(p[0]);
    TrimPartsSameHead(Split(" " + rest, ','), p);
  }

  lemma ParseSingle(x: string)
    requires x != "" && IsTrimmed(x) && ',' !in x
    ensures ParseCommaList(x) == [x]
  {
    SplitCommaFree(x, "", ',');
    assert x + "" == x;
    assert Split("", ',') == [""];
    assert Split(x, ',') == [x];
    TrimOfTrimmed(x);
    assert [x][1..] == [];
    assert TrimParts([x]) == [x] + TrimParts([]);
  }

  lemma TrimPartsOfEmptyPart()
    ensures TrimParts([""]) == []
  {
    var e: string := [];
    assert LeadingSpaces(e) == 0 && TrailingSpaces(e) == 0;
    assert Trim(e) == e;
    var p: seq<string> := [e];
    assert p[0] == e && p[1..] == [];
  }

  lemma ParseEmpty()
    ensures ParseCommaList("") == []
  {
    assert Split("", ',') == [""];
    TrimPartsOfEmptyPart();
  }

  lemma JoinUnfold(xs: seq<string>)
    requires |xs| >= 2
    ensures Join(xs, ", ") == xs[0] + [','] + (" " + Join(xs[1..], ", "))
  {
    var rest := Join(xs[1..], ", ");
    assert Join(xs, ", ") == xs[0] + ", " + rest;
    assert ", " == [','] + " ";
    Regroup(xs[0], [','], " ", rest);
  }

  lemma Regroup<T>(a: seq<T>, b: seq<T>, c: seq<T>, d: seq<T>)
    ensures a + (b + c) + d == a + b + (c + d)
  {
  }

  lemma ParseCons(x: string, rest: string)
    requires x != "" && IsTrimmed(x) && ',' !in x
    ensures ParseCommaList(x + [','] + rest) == [x] + ParseCommaList(rest)
  {
    SplitAtSeparator(x, rest, ',');
    TrimPartsAppend([x], Split(rest, ','));
    TrimOfTrimmed(x);
  }

  lemma CleanItemsTail(xs: seq<string>)
    requires xs != [] && CleanItems(xs)
    ensures CleanItems(xs[1..])
  {
    forall k | 0 <= k < |xs[1..]|
      ensures xs[1..][k] != "" && IsTrimmed(xs[1..][k]) && ',' !in xs[1..][k]
    {
      assert xs[1..][k] == xs[k + 1];
    }
  }

  /** One step of the round trip: the first item, then what follows its comma. */
  lemma ParseJoinStep(xs: seq<string>)
    requires |xs| >= 2 && CleanItems(xs)
    requires ParseCommaList(Join(xs[1..], ", ")) == xs[1..]
    ensures ParseCommaList(Join(xs, ", ")) == xs
  {
    var rest := Join(xs[1..], ", ");
    JoinUnfold(xs);
    assert xs[0] != "" && IsTrimmed(xs[0]) && ',' !in xs[0];
    ParseCons(xs[0], " " + rest);
    LeadingSpaceIgnored(rest);
    assert [xs[0]] + xs[1..] == xs;
  }

  /** Parsing what `join(", ")` wrote gives back the list, for lists of
      trimmed, non-empty items without commas. */
  lemma {:induction false} ParseJoinRoundTrip(xs: seq<string>)
    requires CleanItems(xs)
    ensures ParseCommaList(Join(xs, ", ")) == xs
    decreases |xs|
  {
    if |xs| == 0 {
      ParseEmpty();
    } else if |xs| == 1 {
      ParseSingle(xs[0]);
    } else {
      CleanItemsTail(xs);
      ParseJoinRoundTrip(xs[1..]);
      ParseJoinStep(xs);
    }
  }

  // ---------------------------------------------------------------------
  // Numbers as text

  function NatToString(n: nat): (r: string)
    ensures |r| >= 1 && AllDigits(r)
    decreases n
  {
    if n < 10 then [DigitChar(n)] else NatToString(n / 10) + [DigitChar(n % 10)]
  }

  /** `String(n)` for an integer. */
  function IntToString(n: int): string {
    if n < 0 then "-" + NatToString(-n) else NatToString(n)
  }

  /** `s.padStart(2, "0")`. */
  function PadStart2(s: string): (r: string)
    ensures |r| == if |s| >= 2 then |s| else 2
  {
    if |s| >= 2 then s else seq(2 - |s|, _ => '0') + s
  }

  /** `Number(s)` for a string of decimal digits. */
  function DigitsValue(s: string): nat
    requires AllDigits(s)
    decreases |s|
  {
    if s == [] then 0 else DigitsValue(s[..|s| - 1]) * 10 + DigitValue(s[|s| - 1])
  }

  /** `Number(String(n))` is `n`. */
  lemma {:induction false} DigitsValueOfNatToString(n: nat)
    ensures DigitsValue(NatToString(n)) == n
    decreases n
  {
    if n >= 10 {
      var s := NatToString(n);
      assert s[..|s| - 1] == NatToString(n / 10);
      DigitsValueOfNatToString(n / 10);
    }
  }

  // ---------------------------------------------------------------------
  // Order

  /** The code-point order `Array.prototype.sort` uses by default; also the
      stand-in for `localeCompare`. */
  predicate LexLe(a: string, b: string)
    decreases |a|
  {
    a == [] || (b != [] && (a[0] < b[0] || (a[0] == b[0] && LexLe(a[1..], b[1..]))))
  }

  lemma {:induction false} LexLeTotal(a: string, b: string)
    ensures LexLe(a, b) || LexLe(b, a)
    decreases |a|
  {
    if a != [] && b != [] && a[0] == b[0] {
      LexLeTotal(a[1..], b[1..]);
    }
  }

  lemma {:induction false} LexLeTransitive(a: string, b: string, c: string)
    requires LexLe(a, b) && LexLe(b, c)
    ensures LexLe(a, c)
    decreases |a|
  {
    if a != [] && b != [] && c != [] && a[0] == b[0] == c[0] {
      LexLeTransitive(a[1..], b[1..], c[1..]);
    }
  }

  lemma {:induction false} LexLeAntisymmetric(a: string, b: string)
    requires LexLe(a, b) && LexLe(b, a)
    ensures a == b
    decreases |a|
  {
    if a != [] && b != [] {
      LexLeAntisymmetric(a[1..], b[1..]);
      assert a == [a[0]] + a[1..] && b == [b[0]] + b[1..];
    }
  }

  /** A shared prefix does not change the order. */
  lemma {:induction false} LexLeCommonPrefix(p: string, a: string, b: string)
    ensures LexLe(p + a, p + b) == LexLe(a, b)
    decreases |p|
  {
    if p == [] {
      assert p + a == a && p + b == b;
    } else {
      assert (p + a)[1..] == p[1..] + a && (p + b)[1..] == p[1..] + b;
      LexLeCommonPrefix(p[1..], a, b);
    }
  }
}
