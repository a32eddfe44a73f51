/**
 * The JavaScript string built-ins the core relies on, over strings as
 * sequences of characters: `trim` and the `\s` class, `toLowerCase` and
 * `toUpperCase` (ASCII letters only), `includes`, `startsWith`, `endsWith`,
 * `slice(0, n)`, a global `replace` of one character or of runs of a
 * character class (`/[...]+/g`), `Array.prototype.join` and the decimal
 * rendering of a count inside a template string.
 */
module JsText {

  /** The characters JavaScript's `trim` removes and the regex class `\s` matches. */
  predicate IsSpace(c: char) {
    c == ' ' || c == '\t' || c == '\n' || c == '\r'
    || c as int == 0x0B || c as int == 0x0C || c as int == 0xA0 || c as int == 0x1680
    || (0x2000 <= c as int <= 0x200A) || c as int == 0x2028 || c as int == 0x2029
    || c as int == 0x202F || c as int == 0x205F || c as int == 0x3000 || c as int == 0xFEFF
  }

  predicate IsDigit(c: char) { '0' <= c <= '9' }

  predicate IsUpper(c: char) { 'A' <= c <= 'Z' }

  predicate IsLower(c: char) { 'a' <= c <= 'z' }

  /** The regex class `\w`: ASCII letters, digits and the underscore. */
  predicate IsWordChar(c: char) { IsLower(c) || IsUpper(c) || IsDigit(c) || c == '_' }

  /** `toLowerCase` on one character: ASCII upper-case letters map to lower case, nothing else moves. */
  function LowerChar(c: char): (r: char)
    ensures !IsUpper(r)
    ensures IsUpper(c) <==> IsLower(r) && r != c
    ensures !IsUpper(c) ==> r == c
  {
    if IsUpper(c) then (c as int + 32) as char else c
  }

  /** `toUpperCase` on one character: ASCII lower-case letters map to upper case, nothing else moves. */
  function UpperChar(c: char): (r: char)
    ensures !IsLower(r)
    ensures IsLower(c) <==> IsUpper(r) && r != c
    ensures !IsLower(c) ==> r == c
  {
    if IsLower(c) then (c as int - 32) as char else c
  }

  function ToLower(s: string): string {
    seq(|s|, i requires 0 <= i < |s| => LowerChar(s[i]))
  }

  function ToUpper(s: string): string {
    seq(|s|, i requires 0 <= i < |s| => UpperChar(s[i]))
  }

  /** Lower-casing a string that has no upper-case letter leaves it as it is. */
  lemma ToLowerWithoutUpper(s: string)
    requires forall i :: 0 <= i < |s| ==> !IsUpper(s[i])
    ensures ToLower(s) == s
  {
  }

  /** Drops the leading characters that satisfy `p`. */
  function DropWhile(s: string, p: char -> bool): (r: string)
    ensures |r| <= |s|
    ensures r != [] ==> !p(r[0])
    ensures s != [] && p(s[0]) ==> |r| < |s|
  {
    if s != [] && p(s[0]) then DropWhile(s[1..], p) else s
  }

  /** `DropWhile` leaves a suffix of `s`, and every character it drops satisfies `p`. */
  lemma {:induction false} DropWhileDropped(s: string, p: char -> bool)
    ensures DropWhile(s, p) == s[|s| - |DropWhile(s, p)|..]
    ensures forall i :: 0 <= i < |s| - |DropWhile(s, p)| ==> p(s[i])
  {
    if s != [] && p(s[0]) {
      DropWhileDropped(s[1..], p);
      assert s[1..][|s| - 1 - |DropWhile(s, p)|..] == s[|s| - |DropWhile(s, p)|..];
      forall i | 1 <= i < |s| - |DropWhile(s, p)| ensures p(s[i]) {
        assert s[1..][i - 1] == s[i];
      }
    }
  }

  function TrimStart(s: string): string {
    DropWhile(s, IsSpace)
  }

  function TrimEnd(s: string): (r: string)
    ensures |r| <= |s|
    ensures r != [] ==> !IsSpace(r[|r| - 1])
  {
    if s != [] && IsSpace(s[|s| - 1]) then TrimEnd(s[..|s| - 1]) else s
  }

  /** `TrimEnd` leaves a prefix of `s`, and every character it drops is whitespace. */
  lemma {:induction false} TrimEndDropped(s: string)
    ensures TrimEnd(s) == s[..|TrimEnd(s)|]
    ensures forall i :: |TrimEnd(s)| <= i < |s| ==> IsSpace(s[i])
  {
    if s != [] && IsSpace(s[|s| - 1]) {
      var init := s[..|s| - 1];
      TrimEndDropped(init);
      assert init[..|TrimEnd(s)|] == s[..|TrimEnd(s)|];
      forall i | |TrimEnd(s)| <= i < |s| - 1 ensures IsSpace(s[i]) {
        assert init[i] == s[i];
      }
    }
  }

  /** `String.prototype.trim`. */
  function Trim(s: string): string {
    TrimEnd(TrimStart(s))
  }

  /**
   * The trimmed string is the middle of `s` left once the whitespace at both
   * ends is gone; it is empty exactly when `s` is all whitespace.
   */
  lemma TrimSpec(s: string)
    ensures var r := Trim(s);
      |r| <= |s|
      && (r != [] ==> !IsSpace(r[0]) && !IsSpace(r[|r| - 1]))
      && (r == [] <==> forall i :: 0 <= i < |s| ==> IsSpace(s[i]))
      && (exists k :: OccursAt(s, r, k)
            && (forall i :: 0 <= i < k ==> IsSpace(s[i]))
            && (forall i :: k + |r| <= i < |s| ==> IsSpace(s[i])))
  {
    var t := TrimStart(s);
    var r := TrimEnd(t);
    DropWhileDropped(s, IsSpace);
    TrimEndDropped(t);
    var k := |s| - |t|;
    assert r == s[k..k + |r|];
    assert OccursAt(s, r, k);
    forall i | k + |r| <= i < |s| ensures IsSpace(s[i]) {
      assert t[i - k] == s[i];
    }
  }

  /** A string with no whitespace at either end is its own trim. */
  lemma TrimUntouched(s: string)
    requires s != [] ==> !IsSpace(s[0]) && !IsSpace(s[|s| - 1])
    ensures Trim(s) == s
  {
    TrimSpec(s);
  }

  lemma TrimIdempotent(s: string)
    ensures Trim(Trim(s)) == Trim(s)
  {
    TrimSpec(s);
    TrimUntouched(Trim(s));
  }

  /** Every character of the trimmed string comes from the input. */
  lemma TrimChars(s: string)
    ensures forall c :: c in Trim(s) ==> c in s
  {
    var r := Trim(s);
    TrimSpec(s);
    var k :| OccursAt(s, r, k);
    forall c | c in r ensures c in s {
      var i :| 0 <= i < |r| && r[i] == c;
      assert s[k + i] == c;
    }
  }

  /** `part` sits in `s` starting at index `i`. */
  predicate OccursAt(s: string, part: string, i: int) {
    0 <= i <= |s| - |part| && s[i..i + |part|] == part
  }

  predicate StartsWith(s: string, prefix: string) {
    |prefix| <= |s| && s[..|prefix|] == prefix
  }

  predicate EndsWith(s: string, suffix: string) {
    |suffix| <= |s| && s[|s| - |suffix|..] == suffix
  }

  /** `String.prototype.includes`: `part` occurs in `s` at some position. */
  predicate Contains(s: string, part: string)
    decreases |s|
  {
    StartsWith(s, part) || (s != [] && Contains(s[1..], part))
  }

  /** `Contains` holds exactly when `part` sits at some index of `s`. */
  lemma {:induction false} ContainsAt(s: string, part: string)
    ensures Contains(s, part) <==> exists i :: OccursAt(s, part, i)
    decreases |s|
  {
    if StartsWith(s, part) {
      assert OccursAt(s, part, 0);
    } else if s == [] {
    } else {
      ContainsAt(s[1..], part);
      if exists i :: OccursAt(s, part, i) {
        var i :| OccursAt(s, part, i);
        assert i != 0;
        assert s[1..][i - 1..i - 1 + |part|] == part;
        assert OccursAt(s[1..], part, i - 1);
      }
      if Contains(s[1..], part) {
        var j :| OccursAt(s[1..], part, j);
        assert s[j + 1..j + 1 + |part|] == part;
        assert OccursAt(s, part, j + 1);
      }
    }
  }

  /** The number of occurrences of `c` in `s`. */
  function CountChar(s: string, c: char): (n: nat)
    ensures n <= |s|
  {
    if s == [] then 0 else (if s[0] == c then 1 else 0) + CountChar(s[1..], c)
  }

  /** `s.replace(/c/g, "")`: `s` with every `c` taken out, the rest in order. */
  function RemoveChar(s: string, c: char): (r: string)
    ensures |r| == |s| - CountChar(s, c)
    ensures c !in r
    ensures forall x :: x != c ==> multiset(r)[x] == multiset(s)[x]
  {
    if s == [] then []
    else
      assert s == [s[0]] + s[1..];
      (if s[0] == c then [] else [s[0]]) + RemoveChar(s[1..], c)
  }

  /**
   * Removing a character works piece by piece: removing it from a
   * concatenation is removing it from each part. With `RemoveCharSingle`
   * this fixes the result, order included.
   */
  lemma {:induction false} RemoveCharConcat(a: string, b: string, c: char)
    ensures RemoveChar(a + b, c) == RemoveChar(a, c) + RemoveChar(b, c)
  {
    if a == [] {
      assert a + b == b;
    } else {
      var t := a + b;
      var head := if a[0] == c then [] else [a[0]];
      assert t[0] == a[0] && t[1..] == a[1..] + b;
      RemoveCharConcat(a[1..], b, c);
      AppendAssociative(head, RemoveChar(a[1..], c), RemoveChar(b, c));
    }
  }

  lemma AppendAssociative(p: string, q: string, r: string)
    ensures p + (q + r) == (p + q) + r
  {
  }

  /** A one-character string loses its character exactly when it is the one removed. */
  lemma RemoveCharSingle(x: char, c: char)
    ensures RemoveChar([x], c) == if x == c then [] else [x]
  {
    assert [x][1..] == [];
  }

  /** `s.slice(0, n)` for a non-negative `n`. */
  function Take(s: string, n: nat): (r: string)
    ensures |r| == if |s| <= n then |s| else n
    ensures r == s[..|r|]
  {
    if |s| <= n then s else s[..n]
  }

  /**
   * `s.replace(/[class]+/g, repl)`, with the class given by `inRun`: each
   * maximal run of characters of the class becomes one copy of `repl`.
   */
  function ReplaceRuns(s: string, inRun: char -> bool, repl: string): string
    decreases |s|
  {
    if s == [] then []
    else if inRun(s[0]) then repl + ReplaceRuns(DropWhile(s, inRun), inRun, repl)
    else [s[0]] + ReplaceRuns(s[1..], inRun, repl)
  }

  /** A character of the result is a character of `repl` or a character of `s` outside the class. */
  lemma {:induction false} ReplaceRunsChars(s: string, inRun: char -> bool, repl: string)
    ensures forall c :: c in ReplaceRuns(s, inRun, repl) ==> c in repl || (c in s && !inRun(c))
    decreases |s|
  {
    if s == [] {
    } else if inRun(s[0]) {
      var t := DropWhile(s, inRun);
      ReplaceRunsChars(t, inRun, repl);
      DropWhileDropped(s, inRun);
      forall c | c in t ensures c in s {
        var i :| 0 <= i < |t| && t[i] == c;
        assert s[|s| - |t| + i] == c;
      }
    } else {
      ReplaceRunsChars(s[1..], inRun, repl);
      forall c | c in s[1..] ensures c in s {
        var i :| 0 <= i < |s| - 1 && s[1..][i] == c;
        assert s[i + 1] == c;
      }
    }
  }

  /** A string outside the class starts its replacement with its own first character. */
  lemma ReplaceRunsFirst(s: string, inRun: char -> bool, repl: string)
    requires s != [] && !inRun(s[0])
    ensures ReplaceRuns(s, inRun, repl) != [] && ReplaceRuns(s, inRun, repl)[0] == s[0]
  {
  }

  /** A string whose last character is outside the class keeps it last. */
  lemma {:induction false} ReplaceRunsLast(s: string, inRun: char -> bool, repl: string)
    requires s != [] && !inRun(s[|s| - 1])
    ensures var r := ReplaceRuns(s, inRun, repl); r != [] && r[|r| - 1] == s[|s| - 1]
    decreases |s|
  {
    if inRun(s[0]) {
      var t := DropWhile(s, inRun);
      DropWhileDropped(s, inRun);
      assert t != [];
      assert t[|t| - 1] == s[|s| - 1];
      ReplaceRunsLast(t, inRun, repl);
    } else if |s| > 1 {
      assert s[1..][|s| - 2] == s[|s| - 1];
      ReplaceRunsLast(s[1..], inRun, repl);
    }
  }

  /** No two characters of `p` stand side by side in `s`. */
  predicate NoTwoAdjacent(s: string, p: char -> bool) {
    forall i :: 0 <= i < |s| - 1 ==> !(p(s[i]) && p(s[i + 1]))
  }

  /**
   * When the replacement is a single character of the class itself, the
   * result never has two class characters side by side.
   */
  lemma {:induction false} ReplaceRunsSeparates(s: string, inRun: char -> bool, d: char)
    requires inRun(d)
    ensures NoTwoAdjacent(ReplaceRuns(s, inRun, [d]), inRun)
    decreases |s|
  {
    var r := ReplaceRuns(s, inRun, [d]);
    if s != [] {
      var t := if inRun(s[0]) then DropWhile(s, inRun) else s[1..];
      var rest := ReplaceRuns(t, inRun, [d]);
      ReplaceRunsSeparates(t, inRun, d);
      assert r == [r[0]] + rest;
      if inRun(s[0]) && t != [] {
        ReplaceRunsFirst(t, inRun, [d]);
      }
      forall i | 0 <= i < |r| - 1 ensures !(inRun(r[i]) && inRun(r[i + 1])) {
        if i > 0 {
          assert r[i] == rest[i - 1] && r[i + 1] == rest[i];
        }
      }
    }
  }

  /** A string with no character of the class is left as it is. */
  lemma {:induction false} ReplaceRunsNoMatch(s: string, inRun: char -> bool, repl: string)
    requires forall i :: 0 <= i < |s| ==> !inRun(s[i])
    ensures ReplaceRuns(s, inRun, repl) == s
    decreases |s|
  {
    if s != [] {
      ReplaceRunsNoMatch(s[1..], inRun, repl);
    }
  }

  /**
   * A string whose class characters are all `d` and stand alone is left as
   * it is by replacing each run with `d`.
   */
  lemma {:induction false} ReplaceRunsSingletons(s: string, inRun: char -> bool, d: char)
    requires forall i :: 0 <= i < |s| && inRun(s[i]) ==> s[i] == d
    requires NoTwoAdjacent(s, inRun)
    ensures ReplaceRuns(s, inRun, [d]) == s
    decreases |s|
  {
    if s != [] {
      ReplaceRunsSingletons(s[1..], inRun, d);
      if inRun(s[0]) {
        assert DropWhile(s, inRun) == s[1..] by {
          if |s| > 1 {
            assert !inRun(s[1]);
            assert DropWhile(s[1..], inRun) == s[1..];
          }
        }
      }
    }
  }

  /** `Array.prototype.includes`: some element of `list` equals `x`. */
  predicate Includes<T(==)>(list: seq<T>, x: T) {
    list != [] && (list[0] == x || Includes(list[1..], x))
  }

  lemma {:induction false} IncludesIn<T>(list: seq<T>, x: T)
    ensures Includes(list, x) <==> x in list
  {
    if list != [] {
      IncludesIn(list[1..], x);
      assert list == [list[0]] + list[1..];
    }
  }

  function DigitChar(d: nat): (c: char)
    requires d < 10
    ensures IsDigit(c)
  {
    ('0' as int + d) as char
  }

  /** The decimal digits of `n`, as a template string renders a whole number. */
  function NatToString(n: nat): (r: string)
    ensures r != [] && forall i :: 0 <= i < |r| ==> IsDigit(r[i])
    decreases n
  {
    if n < 10 then [DigitChar(n)] else NatToString(n / 10) + [DigitChar(n % 10)]
  }

  /** The number a string of decimal digits denotes. */
  function DecimalValue(s: string): nat
    requires forall i :: 0 <= i < |s| ==> IsDigit(s[i])
  {
    if s == [] then 0
    else
      assert IsDigit(s[|s| - 1]);
      DecimalValue(s[..|s| - 1]) * 10 + (s[|s| - 1] as int - '0' as int)
  }

  /** Reading back the digits `NatToString` writes gives the number again. */
  lemma {:induction false} DecimalRoundTrip(n: nat)
    ensures DecimalValue(NatToString(n)) == n
    decreases n
  {
    if n >= 10 {
      DecimalRoundTrip(n / 10);
      var r := NatToString(n);
      assert r[..|r| - 1] == NatToString(n / 10);
    }
  }

  /** `Array.prototype.join(sep)`. */
  function Join(parts: seq<string>, sep: string): string
  {
    if parts == [] then []
    else if |parts| == 1 then parts[0]
    else parts[0] + sep + Join(parts[1..], sep)
  }
}
