/**
 Line loading and token normalisation of multi_account_bot.py: the whitespace
 strip and blank-line filter of load_lines, and normalize_token.
 */
module Input {
  import opened Options

  /** The characters for which Python's str.isspace holds; str.strip() removes exactly these. */
  predicate IsSpace(c: char) {
    var n := c as int;
    (9 <= n <= 13) || (28 <= n <= 32) || n == 0x85 || n == 0xA0 || n == 0x1680
    || (0x2000 <= n <= 0x200A) || n == 0x2028 || n == 0x2029 || n == 0x202F
    || n == 0x205F || n == 0x3000
  }

  predicate AllSpace(s: string) {
    forall k :: 0 <= k < |s| ==> IsSpace(s[k])
  }

  /** Drops leading whitespace. */
  function TrimStart(s: string): (r: string)
    ensures |r| <= |s|
  {
    if s != [] && IsSpace(s[0]) then TrimStart(s[1..]) else s
  }

  /** Drops trailing whitespace. */
  function TrimEnd(s: string): (r: string)
    ensures |r| <= |s|
  {
    if s != [] && IsSpace(s[|s| - 1]) then TrimEnd(s[..|s| - 1]) else s
  }

  /** What TrimStart drops is all whitespace, what it keeps is a suffix that starts with no whitespace. */
  lemma {:induction false} TrimStartShape(s: string)
    ensures var r := TrimStart(s);
      && r == s[|s| - |r|..]
      && (forall k :: 0 <= k < |s| - |r| ==> IsSpace(s[k]))
      && (r == [] || !IsSpace(r[0]))
  {
    if s != [] && IsSpace(s[0]) {
      TrimStartShape(s[1..]);
      var r := TrimStart(s[1..]);
      assert s[1..][|s| - 1 - |r|..] == s[|s| - |r|..];
      forall k | 0 <= k < |s| - |r| ensures IsSpace(s[k]) {
        if k > 0 {
          assert s[1..][k - 1] == s[k];
        }
      }
    }
  }

  /** What TrimEnd drops is all whitespace, what it keeps is a prefix that ends with no whitespace. */
  lemma {:induction false} TrimEndShape(s: string)
    ensures var r := TrimEnd(s);
      && r == s[..|r|]
      && (forall k :: |r| <= k < |s| ==> IsSpace(s[k]))
      && (r == [] || !IsSpace(r[|r| - 1]))
  {
    if s != [] && IsSpace(s[|s| - 1]) {
      TrimEndShape(s[..|s| - 1]);
      var r := TrimEnd(s[..|s| - 1]);
      assert s[..|s| - 1][..|r|] == s[..|r|];
      forall k | |r| <= k < |s| ensures IsSpace(s[k]) {
        if k < |s| - 1 {
          assert s[..|s| - 1][k] == s[k];
        }
      }
    }
  }

  /** Python's str.strip() with no argument. */
  function Strip(s: string): (r: string)
    ensures |r| <= |s|
  {
    TrimEnd(TrimStart(s))
  }

  /** A stripped string neither starts nor ends with whitespace. */
  lemma StripEnds(s: string)
    ensures var r := Strip(s);
      r == [] || (!IsSpace(r[0]) && !IsSpace(r[|r| - 1]))
  {
    var t := TrimStart(s);
    TrimStartShape(s);
    TrimEndShape(t);
    var r := TrimEnd(t);
    if r != [] {
      assert r[0] == t[0];
    }
  }

  /**
   What strip keeps is one slice of the line, starting where TrimStart starts, and every
   character before or after that slice is whitespace.
   */
  lemma StripSlice(s: string)
    ensures var i := |s| - |TrimStart(s)|;
      && i + |Strip(s)| <= |s|
      && s[i..i + |Strip(s)|] == Strip(s)
      && (forall k :: 0 <= k < i ==> IsSpace(s[k]))
      && (forall k :: i + |Strip(s)| <= k < |s| ==> IsSpace(s[k]))
  {
    var t := TrimStart(s);
    TrimStartShape(s);
    TrimEndShape(t);
    SpaceAround(s, t, TrimEnd(t));
  }

  /** A prefix r of a suffix t of s, with whitespace before t in s and after r in t, has only whitespace around it in s. */
  lemma SpaceAround(s: string, t: string, r: string)
    requires |t| <= |s| && t == s[|s| - |t|..]
    requires forall k :: 0 <= k < |s| - |t| ==> IsSpace(s[k])
    requires |r| <= |t| && r == t[..|r|]
    requires forall k :: |r| <= k < |t| ==> IsSpace(t[k])
    ensures var i := |s| - |t|;
      && i + |r| <= |s|
      && s[i..i + |r|] == r
      && (forall k :: 0 <= k < i ==> IsSpace(s[k]))
      && (forall k :: i + |r| <= k < |s| ==> IsSpace(s[k]))
  {
    var i := |s| - |t|;
    assert s[i..i + |r|] == t[..|r|];
    forall k | i + |r| <= k < |s| ensures IsSpace(s[k]) {
      assert t[k - i] == s[k];
    }
  }

  lemma StripIdempotent(s: string)
    ensures Strip(Strip(s)) == Strip(s)
  {
    var r := Strip(s);
    StripEnds(s);
    if r != [] {
      assert TrimStart(r) == r;
      assert TrimEnd(r) == r;
    }
  }

  /** A line strips to nothing exactly when it is all whitespace. */
  lemma StripEmptyIff(s: string)
    ensures Strip(s) == [] <==> AllSpace(s)
  {
    if Strip(s) == [] {
      StripSlice(s);
    } else {
      TrimStartShape(s);
      assert TrimStart(s)[0] == s[|s| - |TrimStart(s)|];
    }
  }

  /** Every line stripped, in order. */
  function StripAll(lines: seq<string>): (r: seq<string>)
    ensures |r| == |lines|
  {
    seq(|lines|, k requires 0 <= k < |lines| => Strip(lines[k]))
  }

  /** The filter `if x` of a Python comprehension over strings: the non-empty elements, in order. */
  function NonEmpty<T>(xs: seq<seq<T>>): (r: seq<seq<T>>)
    ensures |r| <= |xs|
  {
    if xs == [] then []
    else (if xs[0] == [] then [] else [xs[0]]) + NonEmpty(xs[1..])
  }

  /** Every element the filter keeps is a non-empty element of its input. */
  lemma {:induction false} NonEmptyElements<T>(xs: seq<seq<T>>)
    ensures forall k :: 0 <= k < |NonEmpty(xs)| ==> NonEmpty(xs)[k] != [] && NonEmpty(xs)[k] in xs
  {
    if xs != [] {
      var head := if xs[0] == [] then [] else [xs[0]];
      var tail := NonEmpty(xs[1..]);
      NonEmptyElements(xs[1..]);
      forall k | 0 <= k < |head + tail|
        ensures (head + tail)[k] != [] && (head + tail)[k] in xs
      {
        if k >= |head| {
          assert (head + tail)[k] == tail[k - |head|];
          assert tail[k - |head|] in xs[1..];
        }
      }
    }
  }

  /** The filter keeps the order of its input: filtering a concatenation filters each part. */
  lemma {:induction false} NonEmptyAppend<T>(a: seq<seq<T>>, b: seq<seq<T>>)
    ensures NonEmpty(a + b) == NonEmpty(a) + NonEmpty(b)
  {
    if a == [] {
      assert a + b == b;
    } else {
      assert (a + b)[0] == a[0];
      assert (a + b)[1..] == a[1..] + b;
      NonEmptyAppend(a[1..], b);
    }
  }

  /** With no empty element, the filter drops nothing. */
  lemma {:induction false} NonEmptyAll<T>(xs: seq<seq<T>>)
    requires forall k :: 0 <= k < |xs| ==> xs[k] != []
    ensures NonEmpty(xs) == xs
  {
    if xs != [] {
      NonEmptyAll(xs[1..]);
    }
  }

  /** The list comprehension of load_lines: strip every line, keep the non-empty ones in order. */
  function KeepLines(lines: seq<string>): (r: seq<string>)
    ensures |r| <= |lines|
  {
    NonEmpty(StripAll(lines))
  }

  /** A line that strips to itself and is not empty: what load_lines returns. */
  predicate Trimmed(t: string) {
    t != [] && Strip(t) == t
  }

  /** Every kept line is non-empty and already stripped. */
  lemma KeepLinesTrimmed(lines: seq<string>)
    ensures forall k :: 0 <= k < |KeepLines(lines)| ==> Trimmed(KeepLines(lines)[k])
  {
    var stripped := StripAll(lines);
    NonEmptyElements(stripped);
    forall k | 0 <= k < |KeepLines(lines)| ensures Trimmed(KeepLines(lines)[k]) {
      var j :| 0 <= j < |stripped| && stripped[j] == KeepLines(lines)[k];
      StripIdempotent(lines[j]);
    }
  }

  /** Filtering a concatenation of files filters each part: the lines keep their file order. */
  lemma KeepLinesAppend(a: seq<string>, b: seq<string>)
    ensures KeepLines(a + b) == KeepLines(a) + KeepLines(b)
  {
    StripAllAppend(a, b);
    NonEmptyAppend(StripAll(a), StripAll(b));
  }

  lemma StripAllAppend(a: seq<string>, b: seq<string>)
    ensures StripAll(a + b) == StripAll(a) + StripAll(b)
  {
  }

  /** A single line is kept, stripped, exactly when it is not all whitespace. */
  lemma KeepLinesSingle(line: string)
    ensures KeepLines([line]) == if AllSpace(line) then [] else [Strip(line)]
  {
    StripEmptyIff(line);
    assert StripAll([line]) == [Strip(line)];
    assert StripAll([line])[1..] == [];
  }

  /** When no line is blank nothing is dropped: line k of the result is line k stripped. */
  lemma KeepLinesNoBlank(lines: seq<string>)
    requires forall k :: 0 <= k < |lines| ==> !AllSpace(lines[k])
    ensures |KeepLines(lines)| == |lines|
    ensures forall k :: 0 <= k < |lines| ==> KeepLines(lines)[k] == Strip(lines[k])
  {
    forall k | 0 <= k < |lines| ensures StripAll(lines)[k] != [] {
      StripEmptyIff(lines[k]);
    }
    NonEmptyAll(StripAll(lines));
  }

  /**
   load_lines: a missing file (None) yields no lines; otherwise the file's lines,
   stripped, without the blank ones.
   */
  function LoadLines(file: Option<seq<string>>): (r: seq<string>)
    ensures file.None? ==> r == []
    ensures file.Some? ==> |r| <= |file.value|
    ensures forall k :: 0 <= k < |r| ==> Trimmed(r[k])
  {
    match file
    case None => []
    case Some(lines) => KeepLinesTrimmed(lines); KeepLines(lines)
  }

  const BearerPrefix: string := "Bearer "

  /** Python's str.lower on the characters that decide the "bearer " test (ASCII letters). */
  function LowerChar(c: char): char {
    if 'A' <= c <= 'Z' then (c as int + 32) as char else c
  }

  function Lower(s: string): (r: string)
    ensures |r| == |s|
  {
    seq(|s|, k requires 0 <= k < |s| => LowerChar(s[k]))
  }

  /** `line.lower().startswith("bearer ")` */
  predicate HasBearerPrefix(line: string) {
    "bearer " <= Lower(line)
  }

  /**
   normalize_token: the result always carries the bearer prefix and ends with the
   input line; the line comes back unchanged exactly when it already had the prefix
   (in any letter case), and otherwise it is "Bearer " followed by the line and nothing else.
   */
  function NormalizeToken(line: string): (r: string)
    ensures HasBearerPrefix(r)
    ensures |line| <= |r| && r[|r| - |line|..] == line
    ensures r == line <==> HasBearerPrefix(line)
    ensures !HasBearerPrefix(line) ==> r[..|BearerPrefix|] == BearerPrefix
    ensures !HasBearerPrefix(line) ==> |r| == |BearerPrefix| + |line|
  {
    if HasBearerPrefix(line) then line
    else
      var r := BearerPrefix + line;
      assert Lower(r)[..7] == "bearer ";
      r
  }

  lemma NormalizeTokenIdempotent(line: string)
    ensures NormalizeToken(NormalizeToken(line)) == NormalizeToken(line)
  {
  }

  /** Every normalised token has at least the seven characters of the prefix. */
  lemma NormalizedLength(line: string)
    ensures |NormalizeToken(line)| >= |BearerPrefix|
  {
    assert |Lower(NormalizeToken(line))| >= 7;
  }
}
