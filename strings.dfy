/**
 * The Python `str` built-ins that the service listing and the search filter
 * rely on: `isspace`, `lower`, `strip`, `split('\n')`, `split(None, maxsplit)`,
 * the substring test `needle in hay` and `str` of an integer.
 *
 * Python applies Unicode rules to `lower`, `isspace` and `split(None)`. In this
 * model the whitespace is exactly space, tab, line feed, carriage return,
 * vertical tab and form feed (Python also counts U+001C-U+001F and non-ASCII
 * spaces), and lower-casing maps the letters A-Z only.
 */
module Strings {

  /** `c.isspace()` restricted to the six characters this model treats as whitespace. */
  predicate IsSpace(c: char) {
    c == ' ' || c == '\t' || c == '\n' || c == '\r' || c == '\U{000B}' || c == '\U{000C}'
  }

  function LowerChar(c: char): char {
    if 'A' <= c <= 'Z' then (c as int - 'A' as int + 'a' as int) as char else c
  }

  /** `s.lower()` */
  function Lower(s: string): string {
    seq(|s|, i requires 0 <= i < |s| => LowerChar(s[i]))
  }

  /** Lower-casing twice is lower-casing once. */
  lemma LowerIdempotent(s: string)
    ensures Lower(Lower(s)) == Lower(s)
  {
    assert forall i :: 0 <= i < |s| ==> LowerChar(LowerChar(s[i])) == LowerChar(s[i]);
  }

  /** `s.lstrip()`: what is left starts with a non-whitespace character. */
  function LStrip(s: string): (r: string)
    ensures |r| <= |s|
    ensures r == [] || !IsSpace(r[0])
    decreases |s|
  {
    if s != [] && IsSpace(s[0]) then LStrip(s[1..]) else s
  }

  /** `lstrip` drops a whitespace prefix and keeps the rest verbatim. */
  lemma {:induction false} LStripIsSuffix(s: string)
    ensures var r := LStrip(s);
      && r == s[|s| - |r|..]
      && forall i :: 0 <= i < |s| - |r| ==> IsSpace(s[i])
    decreases |s|
  {
    if s != [] && IsSpace(s[0]) {
      LStripIsSuffix(s[1..]);
    }
  }

  /** `s.rstrip()`: drops the trailing whitespace and nothing else. */
  function RStrip(s: string): (r: string)
    ensures |r| <= |s| && r == s[..|r|]
    ensures r == [] || !IsSpace(r[|r| - 1])
    ensures forall i :: |r| <= i < |s| ==> IsSpace(s[i])
    decreases |s|
  {
    if s != [] && IsSpace(s[|s| - 1]) then RStrip(s[..|s| - 1]) else s
  }

  /** `s.strip()` */
  function Strip(s: string): string {
    RStrip(LStrip(s))
  }

  /** A string strips to nothing exactly when every character of it is whitespace. */
  lemma StripEmptyIffBlank(s: string)
    ensures Strip(s) == [] <==> forall i :: 0 <= i < |s| ==> IsSpace(s[i])
  {
    var t := LStrip(s);
    LStripIsSuffix(s);
    if t != [] {
      assert !IsSpace(s[|s| - |t|]);
      assert RStrip(t)[..0] == [] && IsSpace(t[0]) == false;
    }
  }

  /** A string of whitespace only has no words. */
  lemma BlankHasNoWords(s: string)
    requires forall i :: 0 <= i < |s| ==> IsSpace(s[i])
    ensures Words(s) == []
  {
    LStripIsSuffix(s);
  }

  /** The index of the first occurrence of `c` in `s`. */
  function IndexOf(s: string, c: char): (i: nat)
    requires c in s
    ensures i < |s| && s[i] == c
    ensures forall j :: 0 <= j < i ==> s[j] != c
  {
    if s[0] == c then 0 else 1 + IndexOf(s[1..], c)
  }

  /** `s.split(sep)` for a one-character separator: the pieces between separators, empty ones included. */
  function Split(s: string, sep: char): (parts: seq<string>)
    ensures |parts| >= 1
    ensures forall k :: 0 <= k < |parts| ==> sep !in parts[k]
    decreases |s|
  {
    if sep in s then
      var i := IndexOf(s, sep);
      [s[..i]] + Split(s[i + 1..], sep)
    else
      [s]
  }

  /** `sep.join(parts)` */
  function Join(parts: seq<string>, sep: char): string {
    if parts == [] then ""
    else if |parts| == 1 then parts[0]
    else parts[0] + [sep] + Join(parts[1..], sep)
  }

  /** A separator-free piece, the separator and a tail split into the piece and the tail's pieces. */
  lemma SplitAtFirst(p: string, sep: char, tail: string)
    requires sep !in p
    ensures Split(p + [sep] + tail, sep) == [p] + Split(tail, sep)
  {
    var s := p + [sep] + tail;
    assert s[|p|] == sep;
    assert forall j :: 0 <= j < |p| ==> s[j] == p[j];
    assert IndexOf(s, sep) == |p|;
    assert s[..|p|] == p && s[|p| + 1..] == tail;
  }

  /** Splitting loses nothing: joining the pieces with the separator gives the string back. */
  lemma {:induction false} JoinSplit(s: string, sep: char)
    ensures Join(Split(s, sep), sep) == s
    decreases |s|
  {
    if sep in s {
      var i := IndexOf(s, sep);
      var rest := Split(s[i + 1..], sep);
      JoinSplit(s[i + 1..], sep);
      assert Split(s, sep) == [s[..i]] + rest;
      assert Join([s[..i]] + rest, sep) == s[..i] + [sep] + Join(rest, sep);
      assert s == s[..i] + [sep] + s[i + 1..];
    }
  }

  /** The pieces are recovered from their join when none of them holds the separator. */
  lemma {:induction false} SplitJoin(parts: seq<string>, sep: char)
    requires |parts| >= 1
    requires forall k :: 0 <= k < |parts| ==> sep !in parts[k]
    ensures Split(Join(parts, sep), sep) == parts
  {
    if |parts| > 1 {
      var p, rest := parts[0], parts[1..];
      assert forall k :: 0 <= k < |rest| ==> sep !in rest[k] by {
        assert forall k :: 0 <= k < |rest| ==> rest[k] == parts[k + 1];
      }
      SplitJoin(rest, sep);
      assert Join(parts, sep) == p + [sep] + Join(rest, sep);
      SplitAtFirst(p, sep, Join(rest, sep));
      assert parts == [p] + rest;
    } else {
      assert Join(parts, sep) == parts[0];
      assert sep !in parts[0];
    }
  }

  /** The longest prefix of `s` that holds no whitespace. */
  function Word(s: string): (w: string)
    ensures |w| <= |s| && w == s[..|w|]
    ensures s != [] && !IsSpace(s[0]) ==> w != []
    ensures forall i :: 0 <= i < |w| ==> !IsSpace(w[i])
    decreases |s|
  {
    if s == [] || IsSpace(s[0]) then [] else [s[0]] + Word(s[1..])
  }

  /**
   * `s.split()`: the maximal runs of non-whitespace characters, in order.
   * Every word is non-empty and holds no whitespace.
   */
  function Words(s: string): (words: seq<string>)
    ensures forall k :: 0 <= k < |words| ==> IsToken(words[k])
    decreases |s|
  {
    var t := LStrip(s);
    if t == [] then []
    else
      var w := Word(t);
      [w] + Words(t[|w|..])
  }

  /** A non-empty run of non-whitespace characters. */
  predicate IsToken(w: string) {
    w != [] && forall i :: 0 <= i < |w| ==> !IsSpace(w[i])
  }

  /**
   * `s.split(None, maxsplit)`: like `Words`, but after `maxsplit` words the
   * rest of the string, with its leading whitespace dropped, is one last field.
   */
  function SplitFields(s: string, maxsplit: nat): (fields: seq<string>)
    decreases |s|
  {
    var t := LStrip(s);
    if t == [] then []
    else if maxsplit == 0 then [t]
    else
      var w := Word(t);
      [w] + SplitFields(t[|w|..], maxsplit - 1)
  }

  /** The first word of a token followed by whitespace (or nothing) is the token. */
  lemma {:induction false} WordOfToken(w: string, rest: string)
    requires IsToken(w) && (rest == [] || IsSpace(rest[0]))
    ensures Word(w + rest) == w
    decreases |w|
  {
    assert (w + rest)[0] == w[0];
    assert (w + rest)[1..] == w[1..] + rest;
    if |w| > 1 {
      WordOfToken(w[1..], rest);
    }
  }

  /** A leading token is split off as the first field. */
  lemma SplitFieldsToken(w: string, rest: string, maxsplit: nat)
    requires IsToken(w) && (rest == [] || IsSpace(rest[0]))
    ensures SplitFields(w + rest, maxsplit + 1) == [w] + SplitFields(rest, maxsplit)
  {
    WordOfToken(w, rest);
    assert (w + rest)[|w|..] == rest;
  }

  /** Leading whitespace does not change the fields. */
  lemma SplitFieldsSpace(c: char, rest: string, maxsplit: nat)
    requires IsSpace(c)
    ensures SplitFields([c] + rest, maxsplit) == SplitFields(rest, maxsplit)
  {
    assert ([c] + rest)[1..] == rest;
  }

  /** A token, a space and more text: the token is the first field, the text gives the rest. */
  lemma TokenThenFields(w: string, rest: string, maxsplit: nat)
    requires IsToken(w)
    ensures SplitFields(w + (" " + rest), maxsplit + 1) == [w] + SplitFields(rest, maxsplit)
  {
    SplitFieldsToken(w, " " + rest, maxsplit);
    SplitFieldsSpace(' ', rest, maxsplit);
  }

  /** With no splits left, a text starting with a non-whitespace character is one field. */
  lemma LastFieldVerbatim(e: string)
    requires e != [] && !IsSpace(e[0])
    ensures SplitFields(e, 0) == [e]
  {
  }

  /**
   * Four tokens and a text that starts with a non-whitespace character,
   * joined by single spaces, split back into those five fields.
   */
  lemma FiveFieldsRoundTrip(a: string, b: string, c: string, d: string, e: string)
    requires IsToken(a) && IsToken(b) && IsToken(c) && IsToken(d)
    requires e != [] && !IsSpace(e[0])
    ensures SplitFields(a + (" " + (b + (" " + (c + (" " + (d + (" " + e))))))), 4) == [a, b, c, d, e]
  {
    LastFieldVerbatim(e);
    TokenThenFields(d, e, 0);
    TokenThenFields(c, d + (" " + e), 1);
    TokenThenFields(b, c + (" " + (d + (" " + e))), 2);
    TokenThenFields(a, b + (" " + (c + (" " + (d + (" " + e))))), 3);
  }

  /** A token holds no whitespace character. */
  lemma TokenLacksSpace(w: string, c: char)
    requires IsToken(w) && IsSpace(c)
    ensures c !in w
  {
    assert forall i :: 0 <= i < |w| ==> w[i] != c;
  }

  /** A text with no whitespace at either end, followed by a newline, strips back to itself. */
  lemma StripTrailingNewline(s: string)
    requires s != [] && !IsSpace(s[0]) && !IsSpace(s[|s| - 1])
    ensures Strip(s + "\n") == s
  {
    assert (s + "\n")[0] == s[0];
    assert LStrip(s + "\n") == s + "\n";
    assert (s + "\n")[..|s|] == s;
  }

  function Min(a: int, b: int): int {
    if a <= b then a else b
  }

  /**
   * A bounded split agrees with the unbounded one: it has as many fields as
   * there are words, up to `maxsplit + 1`, and all but the last are those words.
   */
  lemma {:induction false} SplitFieldsAreWords(s: string, maxsplit: nat)
    ensures |SplitFields(s, maxsplit)| == Min(|Words(s)|, maxsplit + 1)
    ensures forall k :: 0 <= k < |SplitFields(s, maxsplit)| && k < maxsplit ==>
              SplitFields(s, maxsplit)[k] == Words(s)[k]
    decreases |s|
  {
    var t := LStrip(s);
    if t == [] {
      assert SplitFields(s, maxsplit) == [] && Words(s) == [];
    } else if maxsplit == 0 {
      assert SplitFields(s, maxsplit) == [t];
      assert Words(s) == [Word(t)] + Words(t[|Word(t)|..]);
    } else {
      var w := Word(t);
      var rest := t[|w|..];
      SplitFieldsAreWords(rest, maxsplit - 1);
      var fields, words := SplitFields(rest, maxsplit - 1), Words(rest);
      assert SplitFields(s, maxsplit) == [w] + fields;
      assert Words(s) == [w] + words;
    }
  }

  /**
   * The last field of a split that reached its bound is the verbatim rest of
   * the string: a suffix of it that starts with a non-whitespace character,
   * inner whitespace included.
   */
  lemma {:induction false} LastFieldIsSuffix(s: string, maxsplit: nat)
    requires |SplitFields(s, maxsplit)| == maxsplit + 1
    ensures var f := SplitFields(s, maxsplit)[maxsplit];
      && f != [] && !IsSpace(f[0])
      && |f| <= |s| && f == s[|s| - |f|..]
    decreases |s|
  {
    if maxsplit > 0 {
      var t := LStrip(s);
      SplitFieldsStep(s, maxsplit);
      var rest := t[|Word(t)|..];
      LastFieldIsSuffix(rest, maxsplit - 1);
      LastFieldStep(s, rest, SplitFields(rest, maxsplit - 1)[maxsplit - 1]);
    } else {
      LStripIsSuffix(s);
      SplitFieldsStep(s, maxsplit);
    }
  }

  /** The suffix left after the first word of a string is a suffix of the string, and so is any suffix of it. */
  lemma LastFieldStep(s: string, rest: string, f: string)
    requires var t := LStrip(s); t != [] && rest == t[|Word(t)|..]
    requires |f| <= |rest| && f == rest[|rest| - |f|..]
    ensures |f| <= |s| && f == s[|s| - |f|..]
  {
    var t := LStrip(s);
    LStripIsSuffix(s);
    SuffixOfSuffix(s, t, rest, f);
  }

  /** One step of `SplitFields` on a string that is not blank. */
  lemma SplitFieldsStep(s: string, maxsplit: nat)
    requires |SplitFields(s, maxsplit)| == maxsplit + 1
    ensures LStrip(s) != []
    ensures maxsplit == 0 ==> SplitFields(s, maxsplit) == [LStrip(s)]
    ensures maxsplit > 0 ==> var t := LStrip(s);
      SplitFields(s, maxsplit) == [Word(t)] + SplitFields(t[|Word(t)|..], maxsplit - 1)
  {
  }

  /** A suffix of a suffix of `s` is a suffix of `s`. */
  lemma SuffixOfSuffix(s: string, t: string, rest: string, f: string)
    requires |t| <= |s| && t == s[|s| - |t|..]
    requires |rest| <= |t| && rest == t[|t| - |rest|..]
    requires |f| <= |rest| && f == rest[|rest| - |f|..]
    ensures |f| <= |s| && f == s[|s| - |f|..]
  {
  }

  /** The last field of a split that reached its bound holds exactly the words not split off before it. */
  lemma {:induction false} LastFieldWords(s: string, maxsplit: nat)
    requires |SplitFields(s, maxsplit)| == maxsplit + 1
    ensures |Words(s)| > maxsplit
    ensures Words(SplitFields(s, maxsplit)[maxsplit]) == Words(s)[maxsplit..]
    decreases |s|
  {
    SplitFieldsAreWords(s, maxsplit);
    var t := LStrip(s);
    if maxsplit == 0 {
      assert SplitFields(s, maxsplit) == [t];
      assert LStrip(t) == t;
    } else {
      var w := Word(t);
      var rest := t[|w|..];
      var fields := SplitFields(rest, maxsplit - 1);
      assert SplitFields(s, maxsplit) == [w] + fields;
      LastFieldWords(rest, maxsplit - 1);
      assert Words(s) == [w] + Words(rest);
    }
  }

  /** `prefix` is a prefix of `s`. */
  predicate StartsWith(s: string, prefix: string) {
    |prefix| <= |s| && s[..|prefix|] == prefix
  }

  /** `needle in hay` */
  predicate Contains(hay: string, needle: string)
    decreases |hay|
  {
    StartsWith(hay, needle) || (hay != [] && Contains(hay[1..], needle))
  }

  /** Only a needle no longer than the hay is contained in it, and the empty needle always is. */
  lemma {:induction false} ContainsLength(hay: string, needle: string)
    ensures Contains(hay, needle) ==> |needle| <= |hay|
    ensures Contains(hay, "")
    decreases |hay|
  {
    assert StartsWith(hay, "");
    if hay != [] {
      ContainsLength(hay[1..], needle);
    }
  }

  /** `needle` occurs in `hay` starting at index `i`. */
  predicate OccursAt(hay: string, needle: string, i: int) {
    0 <= i && i + |needle| <= |hay| && hay[i..i + |needle|] == needle
  }

  /** The substring test holds exactly when the needle occurs at some index of the hay. */
  lemma {:induction false} ContainsIffOccurs(hay: string, needle: string)
    ensures Contains(hay, needle) <==> exists i :: OccursAt(hay, needle, i)
    decreases |hay|
  {
    assert OccursAt(hay, needle, 0) <==> StartsWith(hay, needle);
    if hay != [] {
      ContainsIffOccurs(hay[1..], needle);
      forall i | 0 < i
        ensures OccursAt(hay, needle, i) <==> OccursAt(hay[1..], needle, i - 1)
      {
        if i + |needle| <= |hay| {
          assert hay[1..][i - 1..i - 1 + |needle|] == hay[i..i + |needle|];
        }
      }
      if Contains(hay[1..], needle) {
        var i :| OccursAt(hay[1..], needle, i);
        assert OccursAt(hay, needle, i + 1);
      }
    }
  }

  /** A substring of a substring is a substring. */
  lemma ContainsTransitive(hay: string, middle: string, needle: string)
    requires Contains(hay, middle) && Contains(middle, needle)
    ensures Contains(hay, needle)
  {
    ContainsIffOccurs(hay, middle);
    ContainsIffOccurs(middle, needle);
    var i :| OccursAt(hay, middle, i);
    var j :| OccursAt(middle, needle, j);
    var outer, inner := hay[i + j..i + j + |needle|], middle[j..j + |needle|];
    forall k | 0 <= k < |needle|
      ensures outer[k] == inner[k]
    {
      assert hay[i..i + |middle|][j + k] == middle[j + k];
    }
    assert outer == inner;
    assert OccursAt(hay, needle, i + j);
    ContainsIffOccurs(hay, needle);
  }

  /** An occurrence at a known index makes the substring test true. */
  lemma OccursContains(hay: string, needle: string, i: int)
    requires OccursAt(hay, needle, i)
    ensures Contains(hay, needle)
  {
    ContainsIffOccurs(hay, needle);
  }

  /** The tail of a concatenation occurs in it. */
  lemma ContainsTail(head: string, tail: string)
    ensures Contains(head + tail, tail)
  {
    assert (head + tail)[|head|..|head| + |tail|] == tail;
    assert OccursAt(head + tail, tail, |head|);
    ContainsIffOccurs(head + tail, tail);
  }

  /** Lower-casing cannot introduce a lower-case letter whose upper- and lower-case forms are both absent. */
  lemma LowerLacks(s: string, c: char)
    requires 'a' <= c <= 'z'
    requires c !in s && (c as int - 32) as char !in s
    ensures c !in Lower(s)
  {
    assert forall i :: 0 <= i < |s| ==> Lower(s)[i] != c;
  }

  /** A needle holding a character the hay lacks does not occur in it. */
  lemma MissingCharNotContained(hay: string, needle: string, c: char)
    requires c in needle && c !in hay
    ensures !Contains(hay, needle)
  {
    ContainsIffOccurs(hay, needle);
    forall i | 0 <= i && i + |needle| <= |hay|
      ensures !OccursAt(hay, needle, i)
    {
      var j :| 0 <= j < |needle| && needle[j] == c;
      assert hay[i..i + |needle|][j] == hay[i + j] != c;
    }
  }

  /** Lower-casing commutes with slicing. */
  lemma LowerSlice(s: string, i: int, j: int)
    requires 0 <= i <= j <= |s|
    ensures Lower(s)[i..j] == Lower(s[i..j])
  {
  }

  /**
   * A needle whose second character occurs in the hay only at index `k`,
   * and not right after the needle's first character, does not occur.
   */
  lemma SecondCharOnlyAt(hay: string, needle: string, k: int)
    requires |needle| >= 2 && 0 <= k < |hay|
    requires needle[1] !in hay[..k] && needle[1] !in hay[k + 1..]
    requires k == 0 || hay[k - 1] != needle[0]
    ensures !Contains(hay, needle)
  {
    ContainsIffOccurs(hay, needle);
    forall i | 0 <= i && i + |needle| <= |hay|
      ensures !OccursAt(hay, needle, i)
    {
      assert hay[i..i + |needle|][0] == hay[i] && hay[i..i + |needle|][1] == hay[i + 1];
      if i + 1 < k {
        assert hay[..k][i + 1] == hay[i + 1];
      } else if i + 1 > k {
        assert hay[k + 1..][i - k] == hay[i + 1];
      }
    }
  }

  /** The characters `0` to `9`. */
  predicate IsDigits(s: string) {
    forall i :: 0 <= i < |s| ==> '0' <= s[i] <= '9'
  }

  function DigitChar(d: nat): char
    requires d < 10
  {
    ('0' as int + d) as char
  }

  /** The decimal digits of `n`, most significant first, without leading zeros. */
  function NatToString(n: nat): (s: string)
    ensures s != [] && IsDigits(s)
    ensures |s| > 1 ==> s[0] != '0'
    decreases n
  {
    if n < 10 then [DigitChar(n)] else NatToString(n / 10) + [DigitChar(n % 10)]
  }

  /** `str(n)` */
  function IntToString(n: int): string {
    if n < 0 then "-" + NatToString(-n) else NatToString(n)
  }

  /** The number a string of decimal digits denotes. */
  function DigitsValue(s: string): nat
    requires IsDigits(s)
  {
    if s == [] then 0 else DigitsValue(s[..|s| - 1]) * 10 + (s[|s| - 1] as int - '0' as int)
  }

  /** `int(s)` for an optional minus sign followed by decimal digits. */
  function ParseInt(s: string): int
    requires (s != [] && s[0] == '-' && IsDigits(s[1..])) || IsDigits(s)
  {
    if s != [] && s[0] == '-' then -(DigitsValue(s[1..]) as int) else DigitsValue(s)
  }

  lemma {:induction false} NatToStringValue(n: nat)
    ensures DigitsValue(NatToString(n)) == n
    decreases n
  {
    if n >= 10 {
      NatToStringValue(n / 10);
      var s := NatToString(n);
      assert s[..|s| - 1] == NatToString(n / 10);
    }
  }

  /** `str` loses nothing: `int(str(n)) == n` for every integer. */
  lemma IntToStringRoundTrip(n: int)
    ensures var s := IntToString(n);
      ((s != [] && s[0] == '-' && IsDigits(s[1..])) || IsDigits(s)) && ParseInt(s) == n
  {
    if n < 0 {
      NatToStringValue(-n);
      var s := IntToString(n);
      assert s[1..] == NatToString(-n);
    } else {
      NatToStringValue(n);
    }
  }
}
