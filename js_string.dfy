/** The String built-ins the string utilities are written with, as pure functions over
    `string`. A Dafny `char` is a Unicode scalar value, so a position here is one
    character, where JavaScript counts UTF-16 code units; the two agree on text inside
    the Basic Multilingual Plane. Case mapping covers ASCII. */
module JsString {
  import opened Wrappers

  /** The characters ECMAScript counts as WhiteSpace or LineTerminator: what `trim`
      strips from both ends and what the regular-expression class `\s` matches. */
  predicate IsWhitespace(c: char) {
    || c == '\t' || c == '\n' || c == '\U{000B}' || c == '\U{000C}' || c == '\r'
    || c == ' ' || c == '\U{00A0}' || c == '\U{1680}' || '\U{2000}' <= c <= '\U{200A}'
    || c == '\U{2028}' || c == '\U{2029}' || c == '\U{202F}' || c == '\U{205F}'
    || c == '\U{3000}' || c == '\U{FEFF}'
  }

  predicate IsNotWhitespace(c: char) { !IsWhitespace(c) }

  predicate AllWhitespace(s: string) {
    forall i :: 0 <= i < |s| ==> IsWhitespace(s[i])
  }

  predicate NoWhitespace(s: string) {
    forall i :: 0 <= i < |s| ==> !IsWhitespace(s[i])
  }

  // ---------------------------------------------------------------------------
  // trimStart, trimEnd, trim

  /** `s` is `r` with only whitespace before it (the first `i` characters) and only
      whitespace after it. */
  predicate WhitespaceAround(s: string, i: nat, r: string) {
    && i + |r| <= |s| && s[i..i + |r|] == r
    && AllWhitespace(s[..i]) && AllWhitespace(s[i + |r|..])
  }

  function TrimStart(s: string): (r: string)
    ensures |r| <= |s| && r == s[|s| - |r|..]
    ensures AllWhitespace(s[..|s| - |r|])
    ensures r == [] || !IsWhitespace(r[0])
  {
    if s != [] && IsWhitespace(s[0]) then TrimStart(s[1..]) else s
  }

  function TrimEnd(s: string): (r: string)
    ensures |r| <= |s| && r == s[..|r|]
    ensures AllWhitespace(s[|r|..])
    ensures r == [] || !IsWhitespace(r[|r| - 1])
  {
    if s != [] && IsWhitespace(s[|s| - 1]) then TrimEnd(s[..|s| - 1]) else s
  }

  /** `str.trim()`: the contiguous middle of `s` left once the whitespace at both ends
      is removed; it neither starts nor ends with whitespace. */
  function Trim(s: string): (r: string)
    ensures |r| <= |s|
    ensures r == [] || (!IsWhitespace(r[0]) && !IsWhitespace(r[|r| - 1]))
    ensures exists i :: WhitespaceAround(s, i, r)
  {
    var t := TrimStart(s);
    var r := TrimEnd(t);
    var i := |s| - |t|;
    assert r == s[i..i + |r|] by { assert t == s[i..]; }
    assert AllWhitespace(s[..i]);
    assert AllWhitespace(s[i + |r|..]) by { assert s[i + |r|..] == t[|r|..]; }
    assert WhitespaceAround(s, i, r);
    r
  }

  /** Trimming a string that neither starts nor ends with whitespace changes nothing. */
  lemma TrimNoEnds(s: string)
    requires s == [] || (!IsWhitespace(s[0]) && !IsWhitespace(s[|s| - 1]))
    ensures Trim(s) == s
  {
    assert TrimStart(s) == s;
  }

  lemma {:induction false} TrimStartSkips(w: string, t: string)
    requires AllWhitespace(w) && (t == [] || !IsWhitespace(t[0]))
    ensures TrimStart(w + t) == t
  {
    if w != [] {
      assert (w + t)[1..] == w[1..] + t;
      TrimStartSkips(w[1..], t);
    }
  }

  lemma {:induction false} TrimEndSkips(t: string, w: string)
    requires AllWhitespace(w) && (t == [] || !IsWhitespace(t[|t| - 1]))
    ensures TrimEnd(t + w) == t
  {
    if w != [] {
      assert (t + w)[..|t + w| - 1] == t + w[..|w| - 1];
      TrimEndSkips(t, w[..|w| - 1]);
    }
  }

  /** Whitespace around a string with non-whitespace ends is exactly what `trim` strips. */
  lemma TrimStrips(before: string, r: string, after: string)
    requires AllWhitespace(before) && AllWhitespace(after)
    requires r != [] && !IsWhitespace(r[0]) && !IsWhitespace(r[|r| - 1])
    ensures Trim(before + r + after) == r
  {
    assert before + r + after == before + (r + after);
    TrimStartSkips(before, r + after);
    TrimEndSkips(r, after);
  }

  lemma TrimIdempotent(s: string)
    ensures Trim(Trim(s)) == Trim(s)
  {
    TrimNoEnds(Trim(s));
  }

  // ---------------------------------------------------------------------------
  // toUpperCase, toLowerCase (ASCII letters only)

  function ToUpper(c: char): char {
    if 'a' <= c <= 'z' then (c as int - 32) as char else c
  }

  function ToLower(c: char): char {
    if 'A' <= c <= 'Z' then (c as int + 32) as char else c
  }

  /** `toUpperCase`: every ASCII lower-case letter is replaced by its capital, and no
      lower-case ASCII letter is left. */
  function UpperCase(s: string): (r: string)
    ensures |r| == |s|
    ensures forall i :: 0 <= i < |s| ==> r[i] == ToUpper(s[i])
    ensures forall i :: 0 <= i < |r| ==> !('a' <= r[i] <= 'z')
  {
    seq(|s|, i requires 0 <= i < |s| => ToUpper(s[i]))
  }

  /** `toLowerCase`: every ASCII capital is replaced by its lower-case letter, and no
      ASCII capital is left. */
  function LowerCase(s: string): (r: string)
    ensures |r| == |s|
    ensures forall i :: 0 <= i < |s| ==> r[i] == ToLower(s[i])
    ensures forall i :: 0 <= i < |r| ==> !('A' <= r[i] <= 'Z')
  {
    seq(|s|, i requires 0 <= i < |s| => ToLower(s[i]))
  }

  lemma LowerCaseConcat(a: string, b: string)
    ensures LowerCase(a + b) == LowerCase(a) + LowerCase(b)
  {
    forall i | 0 <= i < |a + b| ensures LowerCase(a + b)[i] == (LowerCase(a) + LowerCase(b))[i] {
      if i >= |a| { assert (a + b)[i] == b[i - |a|]; }
    }
  }


  /** `s.charAt(0).toUpperCase() + s.slice(1).toLowerCase()`: `charAt(0)` of the
      empty string is the empty string. */
  function CapitalizeFirst(s: string): (r: string)
    ensures |r| == |s|
    ensures forall i :: 0 <= i < |s| ==> r[i] == if i == 0 then ToUpper(s[0]) else ToLower(s[i])
  {
    if s == [] then [] else [ToUpper(s[0])] + LowerCase(s[1..])
  }

  /** Changing case never turns a character into whitespace. */
  lemma CaseKeepsNoWhitespace(s: string)
    requires NoWhitespace(s)
    ensures NoWhitespace(LowerCase(s)) && NoWhitespace(UpperCase(s))
    ensures NoWhitespace(CapitalizeFirst(s))
  {
    if s != [] {
      assert NoWhitespace(LowerCase(s[1..]));
    }
  }

  /** Capitalising text whose first word ends at a space capitalises that word and
      lower-cases the rest. */
  lemma CapitalizeFirstAcrossSpace(a: string, b: string)
    requires a != []
    ensures CapitalizeFirst(a + " " + b) == CapitalizeFirst(a) + " " + LowerCase(b)
  {
    var text := a + " " + b;
    assert text[0] == a[0] && text[1..] == (a[1..] + " ") + b;
    LowerCaseConcat(a[1..] + " ", b);
    LowerCaseConcat(a[1..], " ");
    assert LowerCase(" ") == " ";
  }

  // ---------------------------------------------------------------------------
  // s[i], slice, indexOf, lastIndexOf

  /** `s[i]`: the character at `i`, undefined outside the string. */
  function At(s: string, i: int): (r: Option<char>)
    ensures r.Some? <==> 0 <= i < |s|
    ensures r.Some? ==> r.value == s[i]
  {
    if 0 <= i < |s| then Some(s[i]) else None
  }

  /** How `slice` turns an argument into a position: a negative index counts back from
      the end, and the result is clamped into `[0, len]`. */
  function RelativeIndex(len: nat, i: int): (r: nat)
    ensures r <= len
  {
    if i < 0 then (if len + i < 0 then 0 else len + i)
    else if i < len then i else len
  }

  /** `s.slice(start, end)`, with `end` left undefined when it is `None`. The result is
      the run of `s` from the normalised start to the normalised end, empty when those
      cross. */
  function Slice(s: string, start: int, end: Option<int>): (r: string)
    ensures RelativeIndex(|s|, start) + |r| <= |s|
    ensures r == s[RelativeIndex(|s|, start)..RelativeIndex(|s|, start) + |r|]
    ensures end.None? ==> r == s[RelativeIndex(|s|, start)..]
    ensures end.Some? && RelativeIndex(|s|, start) <= RelativeIndex(|s|, end.value) ==>
              |r| == RelativeIndex(|s|, end.value) - RelativeIndex(|s|, start)
    ensures end.Some? && RelativeIndex(|s|, end.value) <= RelativeIndex(|s|, start) ==> r == []
  {
    var from := RelativeIndex(|s|, start);
    var to := if end.Some? then RelativeIndex(|s|, end.value) else |s|;
    if from < to then s[from..to] else []
  }

  /** `s.indexOf(c)` for a one-character search string: the first position of `c`, or -1. */
  function IndexOf(s: string, c: char): (k: int)
    ensures -1 <= k < |s|
    ensures k == -1 <==> c !in s
    ensures 0 <= k ==> s[k] == c && c !in s[..k]
  {
    if s == [] then -1
    else if s[0] == c then 0
    else
      var k := IndexOf(s[1..], c);
      assert s[1..][..if k < 0 then 0 else k] == s[1..if k < 0 then 1 else k + 1];
      if k < 0 then -1 else k + 1
  }

  /** The first occurrence of `c` is where `indexOf` finds it. */
  lemma {:induction false} IndexOfIs(s: string, c: char, k: nat)
    requires k < |s| && s[k] == c && c !in s[..k]
    ensures IndexOf(s, c) == k
  {
    if k > 0 {
      assert s[..k][0] == s[0];
      assert s[1..][..k - 1] == s[..k][1..];
      IndexOfIs(s[1..], c, k - 1);
    }
  }

  /** `s.lastIndexOf(c)` for a one-character search string: the last position of `c`, or -1. */
  function LastIndexOf(s: string, c: char): (k: int)
    ensures -1 <= k < |s|
    ensures k == -1 <==> c !in s
    ensures 0 <= k ==> s[k] == c && c !in s[k + 1..]
  {
    if s == [] then -1
    else if s[|s| - 1] == c then |s| - 1
    else
      var k := LastIndexOf(s[..|s| - 1], c);
      assert s == s[..|s| - 1] + [s[|s| - 1]];
      k
  }

  /** `s.slice(0, k)` and `s.slice(k + 1)` for `k = s.indexOf(c)`: the text before and
      after the first `c`. With no `c`, `k` is -1, so the first part is `s` without its
      last character and the second is all of `s`. */
  function AroundFirst(s: string, c: char): (parts: (string, string))
    ensures c in s ==> parts.0 + [c] + parts.1 == s && c !in parts.0
    ensures c in s ==> 0 <= IndexOf(s, c) < |s| && parts == (s[..IndexOf(s, c)], s[IndexOf(s, c) + 1..])
    ensures c !in s ==> parts.1 == s
    ensures c !in s && s != [] ==> parts.0 == s[..|s| - 1]
    ensures s == [] ==> parts == ([], [])
  {
    var k := IndexOf(s, c);
    if k >= 0 then
      assert s == s[..k] + [c] + s[k + 1..];
      (s[..k], s[k + 1..])
    else
      (if s == [] then [] else s[..|s| - 1], s)
  }

  /** The two parts are exactly `s.slice(0, k)` and `s.slice(k + 1)` for `k = s.indexOf(c)`. */
  lemma AroundFirstSlices(s: string, c: char)
    ensures AroundFirst(s, c) == (Slice(s, 0, Some(IndexOf(s, c))), Slice(s, IndexOf(s, c) + 1, None))
  {
    var k := IndexOf(s, c);
    assert Slice(s, k + 1, None) == s[k + 1..];
    if k < 0 && s != [] {
      assert Slice(s, 0, Some(k)) == s[..|s| - 1];
    }
  }

  /** `s.slice(s.lastIndexOf(c) + 1)`: the part after the last `c`, or all of `s` when
      there is none. */
  function AfterLast(s: string, c: char): (r: string)
    ensures c !in r
    ensures |r| <= |s| && s[|s| - |r|..] == r
    ensures c in s ==> |r| < |s| && s[|s| - |r| - 1] == c
    ensures c !in s ==> r == s
  {
    var k := LastIndexOf(s, c);
    assert Slice(s, k + 1, None) == s[k + 1..];
    Slice(s, k + 1, None)
  }

  /** The last occurrence of `c` is where `lastIndexOf` finds it. */
  lemma {:induction false} LastIndexOfIs(s: string, c: char, k: nat)
    requires k < |s| && s[k] == c && c !in s[k + 1..]
    ensures LastIndexOf(s, c) == k
  {
    if k < |s| - 1 {
      var init := s[..|s| - 1];
      assert s[k + 1..][|s| - k - 2] == s[|s| - 1];
      assert init[k + 1..] == s[k + 1..][..|s| - k - 2];
      LastIndexOfIs(init, c, k);
    }
  }

  // ---------------------------------------------------------------------------
  // split, join (one-character separator)

  /** `s.split(sep)`: the pieces between the occurrences of `sep`; never empty. */
  function Split(s: string, sep: char): (parts: seq<string>)
    ensures |parts| >= 1
    ensures forall i :: 0 <= i < |parts| ==> sep !in parts[i]
    decreases |s|
  {
    var k := IndexOf(s, sep);
    if k < 0 then [s] else [s[..k]] + Split(s[k + 1..], sep)
  }

  /** `parts.join(sep)`: the pieces in order with one separator between neighbours, so
      no pieces give the empty string and one piece gives itself. */
  function Join(parts: seq<string>, sep: char): (r: string)
    ensures parts == [] ==> r == []
    ensures |parts| == 1 ==> r == parts[0]
  {
    if parts == [] then []
    else if |parts| == 1 then parts[0]
    else parts[0] + [sep] + Join(parts[1..], sep)
  }

  /** Joining the pieces of a split with the same separator gives back the string. */
  lemma {:induction false} JoinSplit(s: string, sep: char)
    ensures Join(Split(s, sep), sep) == s
    decreases |s|
  {
    var k := IndexOf(s, sep);
    if k >= 0 {
      var rest := Split(s[k + 1..], sep);
      JoinSplit(s[k + 1..], sep);
      JoinCons(s[..k], rest, sep);
      assert s == s[..k] + [sep] + s[k + 1..];
    }
  }

  /** The converse round trip: pieces free of the separator are what splitting their
      join gives back. */
  lemma {:induction false} SplitJoin(parts: seq<string>, sep: char)
    requires parts != []
    requires forall i :: 0 <= i < |parts| ==> sep !in parts[i]
    ensures Split(Join(parts, sep), sep) == parts
    decreases |parts|
  {
    if |parts| > 1 {
      var first, rest := parts[0], parts[1..];
      assert parts == [first] + rest;
      JoinCons(first, rest, sep);
      var tail := Join(rest, sep);
      var s := first + [sep] + tail;
      assert s[..|first|] == first && s[|first| + 1..] == tail;
      IndexOfIs(s, sep, |first|);
      SplitJoin(rest, sep);
    }
  }

  lemma JoinCons(first: string, rest: seq<string>, sep: char)
    requires rest != []
    ensures Join([first] + rest, sep) == first + [sep] + Join(rest, sep)
  {
    assert ([first] + rest)[1..] == rest;
  }

  // ---------------------------------------------------------------------------
  // s.split('').reverse().join('')

  /** The characters of `s` in the opposite order. */
  function Reverse(s: string): (r: string)
    ensures |r| == |s|
    ensures forall i :: 0 <= i < |s| ==> r[i] == s[|s| - 1 - i]
  {
    if s == [] then [] else Reverse(s[1..]) + [s[0]]
  }

  /** Reversing twice gives back the original string. */
  lemma ReverseReverse(s: string)
    ensures Reverse(Reverse(s)) == s
  {
    var r := Reverse(s);
    forall i | 0 <= i < |s| ensures Reverse(r)[i] == s[i] {
      assert Reverse(r)[i] == r[|s| - 1 - i];
    }
  }

  // ---------------------------------------------------------------------------
  // replace(/<class>/g, '') for a character class

  /** The characters of `s` that `keep` accepts, in their original order: what
      `s.replace(re, '')` leaves when the global `re` matches exactly the rejected
      characters. */
  function Filter(s: string, keep: char -> bool): (r: string)
    ensures |r| <= |s|
    ensures forall i :: 0 <= i < |r| ==> keep(r[i])
    ensures forall c :: keep(c) ==> multiset(r)[c] == multiset(s)[c]
  {
    if s == [] then []
    else
      var rest := Filter(s[1..], keep);
      assert s == [s[0]] + s[1..];
      if keep(s[0]) then [s[0]] + rest else rest
  }

  /** A string whose every character is kept is its own filtering. */
  lemma {:induction false} FilterKeepsAll(s: string, keep: char -> bool)
    requires forall i :: 0 <= i < |s| ==> keep(s[i])
    ensures Filter(s, keep) == s
  {
    if s != [] {
      FilterKeepsAll(s[1..], keep);
      assert s == [s[0]] + s[1..];
    }
  }

  /** Filtering a concatenation filters each part. */
  lemma {:induction false} FilterConcat(a: string, b: string, keep: char -> bool)
    ensures Filter(a + b, keep) == Filter(a, keep) + Filter(b, keep)
  {
    if a == [] {
      assert a + b == b;
    } else {
      assert (a + b)[0] == a[0] && (a + b)[1..] == a[1..] + b;
      FilterConcat(a[1..], b, keep);
    }
  }

  /** `s.replace(/\s+/g, '')`: every run of whitespace deleted. */
  function RemoveWhitespace(s: string): (r: string)
    ensures NoWhitespace(r)
    ensures forall c :: !IsWhitespace(c) ==> multiset(r)[c] == multiset(s)[c]
  {
    Filter(s, IsNotWhitespace)
  }

  /** A string without whitespace is left as it is, so removing whitespace twice is the
      same as removing it once. */
  lemma RemoveWhitespaceNone(s: string)
    requires NoWhitespace(s)
    ensures RemoveWhitespace(s) == s
  {
    FilterKeepsAll(s, IsNotWhitespace);
  }

  lemma RemoveWhitespaceIdempotent(s: string)
    ensures RemoveWhitespace(RemoveWhitespace(s)) == RemoveWhitespace(s)
  {
    RemoveWhitespaceNone(RemoveWhitespace(s));
  }
}
