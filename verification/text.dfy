/** String operations the application borrows from JavaScript: `trim`,
    ASCII case mapping, `includes`, `startsWith` and the `split(c)[0]` /
    `split(c).pop()` idioms. Strings are sequences of characters; the
    whitespace set and the case mapping are the ASCII ones. */
module Text {
  import opened Wrappers

  /** The characters `trim` removes in this model: space, tab, line feed,
      vertical tab, form feed and carriage return. */
  predicate IsSpace(c: char) {
    c == ' ' || c == '\t' || c == '\n' || c == '\r' || c as int == 11 || c as int == 12
  }

  /** Every character is whitespace; JavaScript's `!s.trim()` holds exactly for these. */
  predicate IsBlank(s: string) {
    forall i :: 0 <= i < |s| ==> IsSpace(s[i])
  }

  /** A character of the Basic Multilingual Plane, one UTF-16 code unit. */
  predicate InBmp(c: char) {
    c as int <= 0xFFFF
  }

  /** JavaScript's `s.length`, which counts UTF-16 code units: one per
      character of the Basic Multilingual Plane, two (a surrogate pair) per
      character above it. */
  function Utf16Length(s: string): (n: nat)
    ensures |s| <= n <= 2 * |s|
  {
    if s == [] then 0 else (if InBmp(s[0]) then 1 else 2) + Utf16Length(s[1..])
  }

  /** The length in code units is the number of characters exactly when every
      character lies in the Basic Multilingual Plane. */
  lemma {:induction false} Utf16LengthBmp(s: string)
    ensures Utf16Length(s) == |s| <==> forall i :: 0 <= i < |s| ==> InBmp(s[i])
    decreases |s|
  {
    if s != [] {
      Utf16LengthBmp(s[1..]);
      assert forall i :: 1 <= i < |s| ==> s[i] == s[1..][i - 1];
    }
  }

  /** The code units of a concatenation are those of its parts. */
  lemma {:induction false} Utf16LengthAppend(a: string, b: string)
    ensures Utf16Length(a + b) == Utf16Length(a) + Utf16Length(b)
    decreases |a|
  {
    if a == [] {
      assert a + b == b;
    } else {
      assert (a + b)[1..] == a[1..] + b;
      Utf16LengthAppend(a[1..], b);
    }
  }

  /** Trimming never adds code units, and removes only those of whitespace,
      so a text that trims to something non-empty has at least one unit. */
  lemma Utf16LengthOfTrim(s: string)
    ensures Utf16Length(Trim(s)) <= Utf16Length(s)
  {
    var t := TrimStart(s);
    var r := TrimEnd(t);
    assert s[|s| - |t|..|s|] == t;
    assert t[0..|r|] == r;
    Utf16LengthOfSlice(s, |s| - |t|, |s|);
    Utf16LengthOfSlice(t, 0, |r|);
  }

  /** A slice has no more code units than the whole. */
  lemma Utf16LengthOfSlice(s: string, i: nat, j: nat)
    requires i <= j <= |s|
    ensures Utf16Length(s[i..j]) <= Utf16Length(s)
  {
    var upTo := s[..j];
    Utf16LengthSplit(s, j);
    assert upTo[..i] == s[..i] && upTo[i..] == s[i..j];
    Utf16LengthSplit(upTo, i);
  }

  /** Cutting a string in two splits its code units between the parts. */
  lemma Utf16LengthSplit(s: string, k: nat)
    requires k <= |s|
    ensures Utf16Length(s) == Utf16Length(s[..k]) + Utf16Length(s[k..])
  {
    assert s == s[..k] + s[k..];
    Utf16LengthAppend(s[..k], s[k..]);
  }

  /** Drops leading whitespace: the result is the longest suffix that does not
      start with whitespace. */
  function TrimStart(s: string): (r: string)
    ensures |r| <= |s| && r == s[|s| - |r|..]
    ensures forall i :: 0 <= i < |s| - |r| ==> IsSpace(s[i])
    ensures |r| > 0 ==> !IsSpace(r[0])
  {
    if |s| > 0 && IsSpace(s[0]) then TrimStart(s[1..]) else s
  }

  /** Drops trailing whitespace: the result is the longest prefix that does not
      end with whitespace. */
  function TrimEnd(s: string): (r: string)
    ensures |r| <= |s| && r == s[..|r|]
    ensures forall i :: |r| <= i < |s| ==> IsSpace(s[i])
    ensures |r| > 0 ==> !IsSpace(r[|r| - 1])
  {
    if |s| > 0 && IsSpace(s[|s| - 1]) then TrimEnd(s[..|s| - 1]) else s
  }

  /** JavaScript's `String.prototype.trim`: the text between the leading and the
      trailing whitespace. */
  function Trim(s: string): (r: string)
    ensures |r| <= |s|
    ensures exists i :: OccursAt(s, r, i)
    ensures exists i :: TrimmedAt(s, r, i)
    ensures |r| > 0 ==> !IsSpace(r[0]) && !IsSpace(r[|r| - 1])
    ensures r == [] <==> IsBlank(s)
  {
    var t := TrimStart(s);
    var r := TrimEnd(t);
    PrefixOfSuffixOccurs(s, t, r);
    TrimBlank(s);
    r
  }

  /** A prefix of a suffix of `s` occurs in `s` where the suffix starts; when
      only whitespace was cut off at both ends, only whitespace surrounds it. */
  lemma PrefixOfSuffixOccurs(s: string, t: string, r: string)
    requires |t| <= |s| && t == s[|s| - |t|..]
    requires |r| <= |t| && r == t[..|r|]
    requires forall k :: 0 <= k < |s| - |t| ==> IsSpace(s[k])
    requires forall k :: |r| <= k < |t| ==> IsSpace(t[k])
    ensures TrimmedAt(s, r, |s| - |t|)
    ensures exists i :: OccursAt(s, r, i)
    ensures exists i :: TrimmedAt(s, r, i)
  {
    var i := |s| - |t|;
    assert s[i + |r|..] == t[|r|..];
    assert OccursAt(s, r, i);
  }

  /** `needle` occurs in `hay` at position `i` with only whitespace before and
      after it. */
  ghost predicate TrimmedAt(hay: string, needle: string, i: int) {
    OccursAt(hay, needle, i) && IsBlank(hay[..i]) && IsBlank(hay[i + |needle|..])
  }

  /** Trimming leaves nothing exactly when the text is blank. */
  lemma TrimBlank(s: string)
    ensures TrimEnd(TrimStart(s)) == [] <==> IsBlank(s)
  {
    var t := TrimStart(s);
    if |t| > 0 {
      assert s[|s| - |t|] == t[0];
    }
  }

  /** Trimming twice is trimming once. */
  lemma TrimIdempotent(s: string)
    ensures Trim(Trim(s)) == Trim(s)
  {
    var r := Trim(s);
    assert TrimStart(r) == r;
    assert TrimEnd(r) == r;
  }

  /** ASCII `toLowerCase` of one character. */
  function LowerChar(c: char): char {
    if 'A' <= c <= 'Z' then (c as int + 32) as char else c
  }

  /** ASCII `toUpperCase` of one character. */
  function UpperChar(c: char): char {
    if 'a' <= c <= 'z' then (c as int - 32) as char else c
  }

  /** ASCII `toLowerCase`, character by character. */
  function ToLower(s: string): (r: string)
    ensures |r| == |s|
    ensures forall i :: 0 <= i < |s| ==> r[i] == LowerChar(s[i])
  {
    seq(|s|, i requires 0 <= i < |s| => LowerChar(s[i]))
  }

  /** `needle` occurs in `hay` at position `i`. */
  ghost predicate OccursAt(hay: string, needle: string, i: int) {
    0 <= i && i + |needle| <= |hay| && hay[i..i + |needle|] == needle
  }

  /** JavaScript's `hay.includes(needle)`: some occurrence exists. */
  function Contains(hay: string, needle: string): (r: bool)
    ensures r <==> exists i :: OccursAt(hay, needle, i)
    decreases |hay|
  {
    if needle <= hay then
      assert OccursAt(hay, needle, 0);
      true
    else if |hay| == 0 then
      false
    else
      var rest := Contains(hay[1..], needle);
      ShiftOccurrence(hay, needle);
      rest
  }

  /** Occurrences in `hay[1..]` are exactly the occurrences in `hay` after position 0. */
  lemma ShiftOccurrence(hay: string, needle: string)
    requires |hay| > 0 && !(needle <= hay)
    ensures (exists i :: OccursAt(hay[1..], needle, i)) <==> (exists i :: OccursAt(hay, needle, i))
  {
    if exists i :: OccursAt(hay[1..], needle, i) {
      var i :| OccursAt(hay[1..], needle, i);
      assert hay[1..][i..i + |needle|] == hay[i + 1..i + 1 + |needle|];
      assert OccursAt(hay, needle, i + 1);
    }
    if exists i :: OccursAt(hay, needle, i) {
      var i :| OccursAt(hay, needle, i);
      assert i > 0;
      assert hay[1..][i - 1..i - 1 + |needle|] == hay[i..i + |needle|];
      assert OccursAt(hay[1..], needle, i - 1);
    }
  }

  /** Every string contains the empty string, so an empty search keeps everything. */
  lemma ContainsEmpty(hay: string)
    ensures Contains(hay, [])
  {
    assert OccursAt(hay, [], 0);
  }

  /** `s.split(c)[0]`: the text before the first `c`, or all of `s` when there is none. */
  function BeforeFirst(s: string, c: char): (r: string)
    ensures r <= s
    ensures c !in r
    ensures |r| < |s| ==> s[|r|] == c
  {
    if |s| == 0 || s[0] == c then [] else [s[0]] + BeforeFirst(s[1..], c)
  }

  /** The text after the first `c`, when `s` contains one. */
  function AfterFirst(s: string, c: char): (r: Option<string>)
    ensures r.None? <==> c !in s
    ensures r.Some? ==> BeforeFirst(s, c) + [c] + r.value == s
  {
    var b := BeforeFirst(s, c);
    if |b| < |s| then
      assert s == b + [c] + s[|b| + 1..];
      Some(s[|b| + 1..])
    else
      assert b == s;
      None
  }

  /** `s.split(c).pop()`: the text after the last `c`, or all of `s` when there is none. */
  function AfterLast(s: string, c: char): (r: string)
    ensures |r| <= |s| && r == s[|s| - |r|..]
    ensures c !in r
    ensures |r| < |s| ==> s[|s| - |r| - 1] == c
  {
    if |s| == 0 || s[|s| - 1] == c then [] else AfterLast(s[..|s| - 1], c) + [s[|s| - 1]]
  }

  /** The decimal digit for `d`. */
  function DigitChar(d: nat): (r: char)
    requires d < 10
    ensures '0' <= r <= '9' && r as int - '0' as int == d
  {
    ('0' as int + d) as char
  }

  /** The value of a string of decimal digits. */
  function DigitsValue(s: string): int
    requires forall i :: 0 <= i < |s| ==> '0' <= s[i] <= '9'
  {
    if |s| == 0 then 0 else 10 * DigitsValue(s[..|s| - 1]) + (s[|s| - 1] as int - '0' as int)
  }

  /** JavaScript's decimal rendering of a natural number (as in a template
      literal): at least one digit, no leading zero. */
  function NatToString(n: nat): (r: string)
    ensures |r| > 0 && (forall i :: 0 <= i < |r| ==> '0' <= r[i] <= '9')
    ensures |r| > 1 ==> r[0] != '0'
    decreases n
  {
    if n < 10 then [DigitChar(n)] else NatToString(n / 10) + [DigitChar(n % 10)]
  }

  /** Reading the rendered digits back gives the number. */
  lemma {:induction false} NatToStringRoundTrip(n: nat)
    ensures DigitsValue(NatToString(n)) == n
    decreases n
  {
    if n >= 10 {
      NatToStringRoundTrip(n / 10);
      var r := NatToString(n);
      assert r[..|r| - 1] == NatToString(n / 10);
    }
  }

  /** The text after the last `c` of `s + [c] + t`, when `t` has no `c`, is `t`. */
  lemma {:induction false} AfterLastSeparator(s: string, c: char, t: string)
    requires c !in t
    ensures AfterLast(s + [c] + t, c) == t
    decreases |t|
  {
    var whole := s + [c] + t;
    if |t| == 0 {
      assert whole[|whole| - 1] == c;
    } else {
      var init := t[..|t| - 1];
      assert whole[..|whole| - 1] == s + [c] + init;
      assert c !in init by {
        assert forall i :: 0 <= i < |init| ==> init[i] == t[i];
      }
      AfterLastSeparator(s, c, init);
      assert t == init + [t[|t| - 1]];
    }
  }

  /** The text before the first `c` of `s + [c] + t`, when `s` has no `c`, is `s`. */
  lemma {:induction false} BeforeFirstSeparator(s: string, c: char, t: string)
    requires c !in s
    ensures BeforeFirst(s + [c] + t, c) == s
    decreases |s|
  {
    var whole := s + [c] + t;
    if |s| > 0 {
      assert whole[1..] == s[1..] + [c] + t;
      assert c !in s[1..] by {
        assert forall i :: 0 <= i < |s[1..]| ==> s[1..][i] == s[i + 1];
      }
      BeforeFirstSeparator(s[1..], c, t);
      assert s == [s[0]] + s[1..];
    }
  }

  /** Without a `c` in it, the whole string comes before the first `c`. */
  lemma BeforeFirstAll(s: string, c: char)
    requires c !in s
    ensures BeforeFirst(s, c) == s
  {
  }
}
