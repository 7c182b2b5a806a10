/**
 * The string operations of the Java runtime and of Spring's utilities that the
 * core relies on, written out over `seq<char>`: null rendering in concatenation,
 * `startsWith`/`substring`, `replace` of one character, ASCII case mapping,
 * `trim`, `String.join`, Spring's comma tokenizer, and `int` to decimal text.
 */
module Strings {
  import opened Wrappers

  /** How Java renders a possibly-null string in `+` and in `String.format("%s")`. */
  function JavaStr(s: Option<string>): string {
    match s
    case None => "null"
    case Some(v) => v
  }

  /** `s.startsWith(p)`. */
  predicate StartsWith(s: string, p: string) {
    |p| <= |s| && s[..|p|] == p
  }

  /** A proper extension of a prefix is longer than it. */
  lemma StartsWithLonger(s: string, p: string)
    requires StartsWith(s, p) && s != p
    ensures |s| > |p|
  {
  }

  /** Whatever is appended to a string keeps the prefixes it had. */
  lemma StartsWithAppend(x: string, y: string, p: string)
    requires StartsWith(x, p)
    ensures StartsWith(x + y, p)
  {
    assert (x + y)[..|p|] == x[..|p|];
  }

  /** Number of occurrences of `c` in `s`. */
  function Count(s: string, c: char): nat {
    if s == [] then 0 else (if s[0] == c then 1 else 0) + Count(s[1..], c)
  }

  lemma {:induction false} CountConcat(a: string, b: string, c: char)
    ensures Count(a + b, c) == Count(a, c) + Count(b, c)
  {
    if a == [] {
      assert a + b == b;
    } else {
      assert (a + b)[1..] == a[1..] + b;
      CountConcat(a[1..], b, c);
    }
  }

  /** `s.replace(c, "")` for a one-character target: every `c` removed, the rest kept in order. */
  function RemoveChar(s: string, c: char): (r: string)
    ensures c !in r
    ensures |r| == |s| - Count(s, c)
    ensures forall x :: x in r ==> x in s
    ensures c !in s ==> r == s
  {
    if s == [] then []
    else if s[0] == c then RemoveChar(s[1..], c)
    else [s[0]] + RemoveChar(s[1..], c)
  }

  lemma {:induction false} RemoveCharConcat(a: string, b: string, c: char)
    ensures RemoveChar(a + b, c) == RemoveChar(a, c) + RemoveChar(b, c)
  {
    if a == [] {
      assert a + b == b;
    } else {
      assert (a + b)[1..] == a[1..] + b;
      RemoveCharConcat(a[1..], b, c);
    }
  }

  /** Java's `Character` case mapping restricted to the ASCII letters. */
  function LowerChar(c: char): char {
    if 'A' <= c <= 'Z' then (c as int + 32) as char else c
  }

  function UpperChar(c: char): char {
    if 'a' <= c <= 'z' then (c as int - 32) as char else c
  }

  /** `s.toLowerCase()` on ASCII letters. */
  function ToLower(s: string): (r: string)
    ensures |r| == |s|
    ensures forall i :: 0 <= i < |s| ==> !('A' <= r[i] <= 'Z')
  {
    seq(|s|, i requires 0 <= i < |s| => LowerChar(s[i]))
  }

  /** `s.toUpperCase()` on ASCII letters. */
  function ToUpper(s: string): (r: string)
    ensures |r| == |s|
    ensures forall i :: 0 <= i < |s| ==> !('a' <= r[i] <= 'z')
  {
    seq(|s|, i requires 0 <= i < |s| => UpperChar(s[i]))
  }

  /** Lower-casing ignores the case the caller wrote: upper-casing first changes nothing. */
  lemma ToLowerIgnoresCase(s: string)
    ensures ToLower(ToUpper(s)) == ToLower(s)
    ensures ToLower(ToLower(s)) == ToLower(s)
  {
    assert forall i :: 0 <= i < |s| ==> LowerChar(UpperChar(s[i])) == LowerChar(s[i]);
  }

  /** A string that `String.trim()` leaves alone: no leading or trailing char at or below U+0020. */
  predicate Trimmed(s: string) {
    s == [] || (s[0] > ' ' && s[|s| - 1] > ' ')
  }

  function TrimStart(s: string): (r: string)
    ensures r == [] || r[0] > ' '
    ensures |r| <= |s| && r == s[|s| - |r|..]
  {
    if |s| > 0 && s[0] <= ' ' then TrimStart(s[1..]) else s
  }

  function TrimEnd(s: string): (r: string)
    ensures r == [] || r[|r| - 1] > ' '
    ensures |r| <= |s| && r == s[..|r|]
  {
    if |s| > 0 && s[|s| - 1] <= ' ' then TrimEnd(s[..|s| - 1]) else s
  }

  /** `s.trim()`: the longest middle part of `s` with no leading or trailing char at or below U+0020. */
  function Trim(s: string): (r: string)
    ensures Trimmed(r)
    ensures Trimmed(s) ==> r == s
  {
    var t := TrimStart(s);
    var r := TrimEnd(t);
    assert r != [] ==> r[0] == t[0];
    r
  }

  /** Some character above U+0020: what survives `trim()`. */
  predicate HasVisible(s: string) {
    s != [] && (s[0] > ' ' || HasVisible(s[1..]))
  }

  lemma {:induction false} TrimStartEmpty(s: string)
    ensures TrimStart(s) == [] <==> !HasVisible(s)
  {
    if |s| > 0 && s[0] <= ' ' {
      TrimStartEmpty(s[1..]);
    }
  }

  /** `TrimEnd` stops at the last visible character, so it keeps every position up to it. */
  lemma {:induction false} TrimEndKeeps(t: string, k: nat)
    requires k < |t| && t[k] > ' '
    ensures |TrimEnd(t)| > k
  {
    if t[|t| - 1] <= ' ' {
      assert k < |t| - 1;
      assert t[..|t| - 1][k] == t[k];
      TrimEndKeeps(t[..|t| - 1], k);
    }
  }

  /** A string opening with `k` visible characters keeps them as the head of its trimmed form. */
  lemma TrimKeepsHead(s: string, k: nat)
    requires 0 < k <= |s|
    requires forall i :: 0 <= i < k ==> s[i] > ' '
    ensures |Trim(s)| >= k && Trim(s)[..k] == s[..k]
  {
    assert TrimStart(s) == s;
    TrimEndKeeps(s, k - 1);
    assert Trim(s) == TrimEnd(s);
    assert TrimEnd(s) == s[..|TrimEnd(s)|];
  }

  /** `s.trim()` is non-empty exactly when `s` holds a character above U+0020. */
  lemma TrimNonEmpty(s: string)
    ensures Trim(s) != "" <==> HasVisible(s)
  {
    TrimStartEmpty(s);
    var t := TrimStart(s);
    if t != [] {
      TrimEndKeeps(t, 0);
    }
  }

  /** `s.indexOf(c)` for a character that occurs: the position of its first occurrence. */
  function IndexOf(s: string, c: char): (i: nat)
    requires c in s
    ensures i < |s| && s[i] == c && c !in s[..i]
  {
    if s[0] == c then 0
    else
      var j := IndexOf(s[1..], c);
      assert s[..j + 1] == [s[0]] + s[1..][..j];
      j + 1
  }

  /** The first `c` of `a + [c] + b` is the one after `a` when `a` has none. */
  lemma IndexOfAfter(a: string, c: char, b: string)
    requires c !in a
    ensures IndexOf(a + [c] + b, c) == |a|
  {
    var s := a + [c] + b;
    var i := IndexOf(s, c);
    assert s[..|a|] == a && s[|a|] == c;
    assert i <= |a| ==> s[..i] == a[..i];
  }

  /** `String.join(sep, xs)`. */
  function Join(xs: seq<string>, sep: string): string {
    if |xs| == 0 then ""
    else if |xs| == 1 then xs[0]
    else xs[0] + sep + Join(xs[1..], sep)
  }

  /** Splits `s` at every `sep`, keeping empty pieces; there is always one more piece than separators. */
  function SplitOn(s: string, sep: char): (r: seq<string>)
    ensures |r| == Count(s, sep) + 1
    ensures forall i :: 0 <= i < |r| ==> sep !in r[i]
  {
    if s == [] then [""]
    else
      var rest := SplitOn(s[1..], sep);
      if s[0] == sep then [""] + rest else [[s[0]] + rest[0]] + rest[1..]
  }

  lemma {:induction false} SplitOnFree(a: string, sep: char)
    requires sep !in a
    ensures SplitOn(a, sep) == [a]
  {
    if a != [] {
      SplitOnFree(a[1..], sep);
      assert [a[0]] + a[1..] == a;
    }
  }

  lemma {:induction false} SplitOnConcat(a: string, b: string, sep: char)
    requires sep !in a
    ensures SplitOn(a + [sep] + b, sep) == [a] + SplitOn(b, sep)
  {
    if a == [] {
      assert a + [sep] + b == [sep] + b;
      assert ([sep] + b)[1..] == b;
    } else {
      var s := a + [sep] + b;
      assert s[0] == a[0] && s[1..] == a[1..] + [sep] + b;
      SplitOnConcat(a[1..], b, sep);
      assert [a[0]] + a[1..] == a;
    }
  }

  /** Joining separator-free pieces and splitting again gives back the pieces. */
  lemma {:induction false} SplitJoin(xs: seq<string>, sep: char)
    requires |xs| >= 1
    requires forall i :: 0 <= i < |xs| ==> sep !in xs[i]
    ensures SplitOn(Join(xs, [sep]), sep) == xs
  {
    if |xs| == 1 {
      SplitOnFree(xs[0], sep);
    } else {
      SplitJoin(xs[1..], sep);
      SplitOnConcat(xs[0], Join(xs[1..], [sep]), sep);
      assert [xs[0]] + xs[1..] == xs;
    }
  }

  function TrimEach(xs: seq<string>): (r: seq<string>)
    ensures |r| == |xs|
    ensures forall i :: 0 <= i < |xs| ==> r[i] == Trim(xs[i])
  {
    if xs == [] then [] else [Trim(xs[0])] + TrimEach(xs[1..])
  }

  function DropEmpty(xs: seq<string>): (r: seq<string>)
    ensures forall i :: 0 <= i < |r| ==> r[i] != ""
    ensures |r| <= |xs|
  {
    if xs == [] then [] else if xs[0] == "" then DropEmpty(xs[1..]) else [xs[0]] + DropEmpty(xs[1..])
  }

  /**
   * Spring's `StringUtils.tokenizeToStringArray(s, ",")`, as used by
   * `AuthorityUtils.commaSeparatedStringToAuthorityList`: a null string gives no
   * tokens; otherwise split at every comma, trim each piece and drop the empty ones.
   */
  function Tokenize(s: Option<string>): (r: seq<string>)
    ensures forall i :: 0 <= i < |r| ==> r[i] != "" && ',' !in r[i] && Trimmed(r[i])
  {
    match s
    case None => []
    case Some(v) => TokenizeText(v)
  }

  function TokenizeText(v: string): (r: seq<string>)
    ensures forall i :: 0 <= i < |r| ==> r[i] != "" && ',' !in r[i] && Trimmed(r[i])
  {
    var pieces := SplitOn(v, ',');
    var trimmed := TrimEach(pieces);
    assert forall i :: 0 <= i < |trimmed| ==> ',' !in trimmed[i] by {
      forall i | 0 <= i < |trimmed| ensures ',' !in trimmed[i] {
        TrimKeepsCharsOut(pieces[i], ',');
      }
    }
    DropEmptyKeeps(trimmed);
    DropEmpty(trimmed)
  }

  lemma TrimKeepsCharsOut(s: string, c: char)
    requires c !in s
    ensures c !in Trim(s)
  {
    var t := TrimStart(s);
    assert t == s[|s| - |t|..];
    assert c !in t;
    var r := TrimEnd(t);
    assert r == t[..|r|];
  }

  lemma {:induction false} DropEmptyKeeps(xs: seq<string>)
    ensures forall i :: 0 <= i < |DropEmpty(xs)| ==> DropEmpty(xs)[i] in xs
  {
    if xs != [] {
      DropEmptyKeeps(xs[1..]);
    }
  }

  /** A token that the tokenizer hands back unchanged: non-empty, comma-free and already trimmed. */
  predicate IsToken(s: string) {
    s != "" && ',' !in s && Trimmed(s)
  }

  /** Already trimmed pieces are left as they are. */
  lemma TrimEachTrimmed(xs: seq<string>)
    requires forall i :: 0 <= i < |xs| ==> Trimmed(xs[i])
    ensures TrimEach(xs) == xs
  {
    var r := TrimEach(xs);
    assert forall i :: 0 <= i < |xs| ==> r[i] == xs[i];
  }

  /** Tokenizing the comma-join of tokens gives back exactly those tokens, in order. */
  lemma {:induction false} TokenizeJoin(xs: seq<string>)
    requires forall i :: 0 <= i < |xs| ==> IsToken(xs[i])
    ensures Tokenize(Some(Join(xs, ","))) == xs
  {
    var text := Join(xs, ",");
    if xs == [] {
      assert text == "";
      assert SplitOn(text, ',') == [""];
      assert TrimEach([""]) == [""];
      assert DropEmpty([""]) == [];
    } else {
      assert "," == [','];
      SplitJoin(xs, ',');
      assert SplitOn(text, ',') == xs;
      TrimEachTrimmed(xs);
      DropEmptyAllNonEmpty(xs);
    }
    assert Tokenize(Some(text)) == TokenizeText(text);
  }

  lemma {:induction false} DropEmptyAllNonEmpty(xs: seq<string>)
    requires forall i :: 0 <= i < |xs| ==> xs[i] != ""
    ensures DropEmpty(xs) == xs
  {
    if xs != [] {
      DropEmptyAllNonEmpty(xs[1..]);
      assert [xs[0]] + xs[1..] == xs;
    }
  }

  /** The numeric value of a string of decimal digits. */
  function DigitsValue(s: string): nat
    requires forall i :: 0 <= i < |s| ==> '0' <= s[i] <= '9'
  {
    if s == [] then 0 else DigitsValue(s[..|s| - 1]) * 10 + (s[|s| - 1] as int - '0' as int)
  }

  /** `Integer.toString(n)`: decimal digits, no leading zero, which read back as `n`. */
  function NatToString(n: nat): (r: string)
    ensures |r| >= 1
    ensures forall i :: 0 <= i < |r| ==> '0' <= r[i] <= '9'
    ensures |r| > 1 ==> r[0] != '0'
    ensures DigitsValue(r) == n
  {
    var d := [(('0' as int) + n % 10) as char];
    if n < 10 then d
    else
      var r := NatToString(n / 10) + d;
      assert r[..|r| - 1] == NatToString(n / 10);
      r
  }
}
