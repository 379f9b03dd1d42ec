/** The JavaScript string operations the application relies on, stated over
    `string` (a sequence of Unicode scalar values). */
module Text {
  import opened Wrappers

  // ---------------------------------------------------------------------
  // Characters
  // ---------------------------------------------------------------------

  /** The characters matched by `\s` in a JavaScript regular expression and
      removed by `String.prototype.trim`: the ECMAScript WhiteSpace and
      LineTerminator code points. */
  predicate IsWhitespace(c: char) {
    || ('\t' <= c <= '\r')                 // tab, line feed, vertical tab, form feed, carriage return
    || c == ' ' || c == '\U{00A0}' || c == '\U{1680}'
    || ('\U{2000}' <= c <= '\U{200A}')
    || c == '\U{2028}' || c == '\U{2029}' || c == '\U{202F}' || c == '\U{205F}'
    || c == '\U{3000}' || c == '\U{FEFF}'
  }

  predicate AllWhitespace(s: string) {
    forall i :: 0 <= i < |s| ==> IsWhitespace(s[i])
  }

  predicate NoWhitespace(s: string) {
    forall i :: 0 <= i < |s| ==> !IsWhitespace(s[i])
  }

  /** ASCII case mapping; every other character is left alone. */
  function LowerChar(c: char): char {
    if 'A' <= c <= 'Z' then (c as int + 32) as char else c
  }

  function UpperChar(c: char): char {
    if 'a' <= c <= 'z' then (c as int - 32) as char else c
  }

  /** `s.toLowerCase()`, restricted to ASCII letters (`CaseMappingSpec`). */
  function ToLower(s: string): string {
    seq(|s|, i requires 0 <= i < |s| => LowerChar(s[i]))
  }

  /** A word of lower-case ASCII letters has no whitespace and is left
      unchanged by lower-casing. */
  lemma LowerWordFixed(s: string)
    requires forall i :: 0 <= i < |s| ==> 'a' <= s[i] <= 'z'
    ensures NoWhitespace(s)
    ensures ToLower(s) == s
  {
  }

  /** `s.toUpperCase()`, restricted to ASCII letters (`CaseMappingSpec`). */
  function ToUpper(s: string): string {
    seq(|s|, i requires 0 <= i < |s| => UpperChar(s[i]))
  }

  // ---------------------------------------------------------------------
  // Prefixes, defaults and trimming
  // ---------------------------------------------------------------------

  /** `s.startsWith(prefix)`. */
  predicate StartsWith(s: string, prefix: string) {
    |prefix| <= |s| && s[..|prefix|] == prefix
  }

  /** `s || default` on strings: only the empty string is replaced. */
  function Or(s: string, default: string): string {
    if s == "" then default else s
  }

  /** `s.trimStart()`: the longest suffix of `s` that does not start with
      whitespace, everything cut off being whitespace. */
  function TrimStart(s: string): (r: string)
    ensures |r| <= |s| && r == s[|s| - |r|..]
    ensures forall i :: 0 <= i < |s| - |r| ==> IsWhitespace(s[i])
    ensures r == [] || !IsWhitespace(r[0])
  {
    if s != [] && IsWhitespace(s[0]) then
      TrimStart(s[1..])
    else
      s
  }

  /** `s.trimEnd()`: the longest prefix of `s` that does not end with
      whitespace, everything cut off being whitespace. */
  function TrimEnd(s: string): (r: string)
    ensures |r| <= |s| && r == s[..|r|]
    ensures forall i :: |r| <= i < |s| ==> IsWhitespace(s[i])
    ensures r == [] || !IsWhitespace(r[|r| - 1])
  {
    if s != [] && IsWhitespace(s[|s| - 1]) then
      TrimEnd(s[..|s| - 1])
    else
      s
  }

  /** `r` is a piece of `s` with nothing but whitespace before it and after
      it. */
  predicate Stripped(s: string, r: string) {
    exists i :: 0 <= i <= |s| - |r| && s[i..i + |r|] == r
                && AllWhitespace(s[..i]) && AllWhitespace(s[i + |r|..])
  }

  /** `s.trim()`: whitespace removed from both ends. The result is a piece
      of `s` with only whitespace cut off around it; it is empty exactly when
      `s` is all whitespace, and otherwise neither starts nor ends with
      whitespace. */
  function Trim(s: string): (r: string)
    ensures |r| <= |s|
    ensures Stripped(s, r)
    ensures r == [] <==> AllWhitespace(s)
    ensures r == [] || (!IsWhitespace(r[0]) && !IsWhitespace(r[|r| - 1]))
  {
    var t := TrimStart(s);
    var r := TrimEnd(t);
    TrimEmptyIffWhitespace(s, t, r);
    WhitespacePrefix(s, |s| - |t|);
    WhitespaceSuffix(t, |r|);
    StrippedOf(s, t, r);
    r
  }

  /** Cutting a whitespace prefix and then a whitespace suffix leaves a
      piece with only whitespace around it. */
  lemma StrippedOf(s: string, t: string, r: string)
    requires |t| <= |s| && t == s[|s| - |t|..] && AllWhitespace(s[..|s| - |t|])
    requires |r| <= |t| && r == t[..|r|] && AllWhitespace(t[|r|..])
    ensures Stripped(s, r)
  {
    var i := |s| - |t|;
    SuffixOfSuffix(s, t, i, |r|);
    SliceOfSuffix(s, t, r, i);
    StrippedAt(s, r, i);
  }

  lemma SuffixOfSuffix<T>(s: seq<T>, t: seq<T>, i: nat, n: nat)
    requires i <= |s| && t == s[i..] && n <= |t|
    ensures i + n <= |s| && s[i + n..] == t[n..]
  {
  }

  lemma StrippedAt(s: string, r: string, i: nat)
    requires i + |r| <= |s| && s[i..i + |r|] == r
    requires AllWhitespace(s[..i]) && AllWhitespace(s[i + |r|..])
    ensures Stripped(s, r)
  {
  }

  lemma SliceOfSuffix<T>(s: seq<T>, t: seq<T>, r: seq<T>, i: nat)
    requires i <= |s| && t == s[i..]
    requires |r| <= |t| && r == t[..|r|]
    ensures i + |r| <= |s| && s[i..i + |r|] == r
  {
    assert s[i..][..|r|] == s[i..i + |r|];
  }

  lemma WhitespacePrefix(s: string, n: nat)
    requires n <= |s|
    requires forall k :: 0 <= k < n ==> IsWhitespace(s[k])
    ensures AllWhitespace(s[..n])
  {
  }

  lemma WhitespaceSuffix(s: string, n: nat)
    requires n <= |s|
    requires forall k :: n <= k < |s| ==> IsWhitespace(s[k])
    ensures AllWhitespace(s[n..])
  {
    forall k | 0 <= k < |s| - n ensures IsWhitespace(s[n..][k]) {
      assert s[n..][k] == s[n + k];
    }
  }

  /** Trimming the end of a word followed by a whitespace run leaves the
      word. */
  lemma {:induction false} TrimEndRun(x: string, w: string)
    requires AllWhitespace(w)
    requires x == [] || !IsWhitespace(x[|x| - 1])
    ensures TrimEnd(x + w) == x
    decreases |w|
  {
    if w != [] {
      assert (x + w)[..|x + w| - 1] == x + w[..|w| - 1];
      TrimEndRun(x, w[..|w| - 1]);
    } else {
      assert x + w == x;
    }
  }

  /** `trim` is the only way to cut whitespace off both ends that leaves
      nothing to cut: any trimmed piece of `s` with only whitespace around
      it is `Trim(s)`. */
  lemma TrimUnique(s: string, r: string)
    requires Stripped(s, r) && Trimmed(r)
    ensures r == Trim(s)
  {
    var i :| 0 <= i <= |s| - |r| && s[i..i + |r|] == r
             && AllWhitespace(s[..i]) && AllWhitespace(s[i + |r|..]);
    TrimUniqueAt(s, r, i);
  }

  lemma TrimUniqueAt(s: string, r: string, i: nat)
    requires i + |r| <= |s| && s[i..i + |r|] == r
    requires AllWhitespace(s[..i]) && AllWhitespace(s[i + |r|..])
    requires Trimmed(r)
    ensures r == Trim(s)
  {
    if r == [] {
      assert AllWhitespace(s) by {
        forall k | 0 <= k < |s| ensures IsWhitespace(s[k]) {
          if k < i { assert s[..i][k] == s[k]; } else { assert s[i..][k - i] == s[k]; }
        }
      }
    } else {
      assert s == s[..i] + s[i..];
      TrimStartRun(s[..i], s[i..]);
      SuffixSplit(s, r, i);
      TrimEndRun(r, s[i + |r|..]);
    }
  }

  lemma SuffixSplit<T>(s: seq<T>, r: seq<T>, i: nat)
    requires i + |r| <= |s| && s[i..i + |r|] == r
    ensures s[i..] == r + s[i + |r|..]
  {
    assert s[i..] == s[i..i + |r|] + s[i + |r|..];
  }

  lemma TrimEmptyIffWhitespace(s: string, t: string, r: string)
    requires t == TrimStart(s) && r == TrimEnd(t)
    ensures r == [] <==> AllWhitespace(s)
    ensures r != [] ==> r[0] == t[0]
  {
    var k := |s| - |t|;
    if r == [] {
      assert t == [];
    } else {
      assert r[0] == t[0];
    }
  }

  /** Neither starts nor ends with whitespace. */
  predicate Trimmed(s: string) {
    s == [] || (!IsWhitespace(s[0]) && !IsWhitespace(s[|s| - 1]))
  }

  /** Trimming gives a trimmed string, and leaves a trimmed string as it
      is. */
  lemma TrimmedFixed(s: string)
    ensures Trimmed(Trim(s))
    ensures Trimmed(s) ==> Trim(s) == s
  {
    if Trimmed(s) {
      assert TrimStart(s) == s;
      assert TrimEnd(s) == s;
    }
  }

  /** No ASCII capital letter. */
  predicate LowerCased(s: string) {
    forall i :: 0 <= i < |s| ==> !('A' <= s[i] <= 'Z')
  }

  /** Both mappings keep the length and change exactly the letters of the
      other case, leaving none of them. */
  lemma CaseMappingSpec(s: string)
    ensures |ToLower(s)| == |s| && |ToUpper(s)| == |s|
    ensures forall i :: 0 <= i < |s| ==> (ToLower(s)[i] == s[i] <==> !('A' <= s[i] <= 'Z'))
    ensures forall i :: 0 <= i < |s| ==> !('A' <= ToLower(s)[i] <= 'Z')
    ensures forall i :: 0 <= i < |s| ==> (ToUpper(s)[i] == s[i] <==> !('a' <= s[i] <= 'z'))
    ensures forall i :: 0 <= i < |s| ==> !('a' <= ToUpper(s)[i] <= 'z')
  {
  }

  /** Upper-casing and then lower-casing is lower-casing, and the other way
      round: the two mappings differ only in the case they produce. */
  lemma CaseRoundTrip(s: string)
    ensures ToLower(ToUpper(s)) == ToLower(s)
    ensures ToUpper(ToLower(s)) == ToUpper(s)
  {
  }

  /** Lower-casing yields a lower-cased string and leaves one unchanged. */
  lemma LowerCasedFacts(s: string)
    ensures LowerCased(ToLower(s))
    ensures LowerCased(s) ==> ToLower(s) == s
  {
  }

  /** Trimming keeps a string lower-cased, since it only cuts off ends. */
  lemma TrimKeepsLowerCased(s: string)
    requires LowerCased(s)
    ensures LowerCased(Trim(s))
  {
    var t := TrimStart(s);
    var r := TrimEnd(t);
    assert Trim(s) == r;
    forall i | 0 <= i < |r| ensures !('A' <= r[i] <= 'Z') {
      assert r[i] == t[i] == s[|s| - |t| + i];
    }
  }

  // ---------------------------------------------------------------------
  // Positions in concatenated sequences
  // ---------------------------------------------------------------------

  /** The front part keeps its positions in a concatenation. */
  lemma IndexInside<T>(a: seq<T>, b: seq<T>)
    ensures |a + b| == |a| + |b|
    ensures forall k :: 0 <= k < |a| ==> (a + b)[k] == a[k]
  {
  }

  /** Putting the head back in front of the rest of a sequence. */
  lemma ConsSplit<T>(x: seq<T>, u: seq<T>)
    requires x != []
    ensures [x[0]] + (x[1..] + u) == x + u
  {
    assert [x[0]] + x[1..] == x;
  }

  /** Every suffix of a non-empty sequence past its head is a suffix of its
      tail. */
  lemma DropFirst<T>(s: seq<T>)
    requires s != []
    ensures forall j :: 1 <= j <= |s| ==> s[j..] == s[1..][j - 1..]
  {
  }

  /** A middle part is found shifted by the length of what precedes it. */
  lemma Regroup<T>(a: seq<T>, b: seq<T>, c: seq<T>, d: seq<T>, e: seq<T>)
    ensures a + b + c + d + e == a + (b + c) + (d + e)
  {
  }

  lemma IndexMiddle<T>(a: seq<T>, m: seq<T>, b: seq<T>, k: nat)
    requires k < |m|
    ensures |a| + k < |a + m + b| && (a + m + b)[|a| + k] == m[k]
  {
  }

  lemma IndexAcross<T>(a: seq<T>, m: seq<T>, b: seq<T>)
    ensures |a + m + b| == |a| + |m| + |b|
    ensures forall k :: 0 <= k < |m| ==> (a + m + b)[|a| + k] == m[k]
    ensures forall k :: 0 <= k < |b| ==> (a + m + b)[|a| + |m| + k] == b[k]
  {
  }

  /** A line that `line.trim()` turns into the empty string. */
  predicate IsBlank(s: string) {
    Trim(s) == ""
  }

  /** Trimming twice is trimming once. */
  lemma TrimIdempotent(s: string)
    ensures Trim(Trim(s)) == Trim(s)
  {
    var r := Trim(s);
    assert TrimStart(r) == r;
    assert TrimEnd(r) == r;
  }

  // ---------------------------------------------------------------------
  // Replacement
  // ---------------------------------------------------------------------

  /** `s.indexOf(pat)`: the position of the first occurrence of `pat`. */
  function IndexOf(s: string, pat: string): (r: Option<nat>)
    ensures r.Some? ==> r.value + |pat| <= |s| && s[r.value..r.value + |pat|] == pat
    ensures r.Some? ==> forall j :: 0 <= j < r.value ==> !StartsWith(s[j..], pat)
    ensures r.None? ==> forall j :: 0 <= j <= |s| ==> !StartsWith(s[j..], pat)
  {
    if StartsWith(s, pat) then
      Some(0)
    else if s == [] then
      None
    else
      match IndexOf(s[1..], pat)
      case None =>
        NoMatchStep(s, pat);
        None
      case Some(k) =>
        MatchStep(s, pat, k);
        Some(k + 1)
  }

  /** No occurrence in the tail and none at the front: none at all. */
  lemma NoMatchStep(s: string, pat: string)
    requires s != [] && !StartsWith(s, pat)
    requires forall j :: 0 <= j <= |s[1..]| ==> !StartsWith(s[1..][j..], pat)
    ensures forall j :: 0 <= j <= |s| ==> !StartsWith(s[j..], pat)
  {
    DropFirst(s);
  }

  /** The first occurrence in the tail, shifted by one, is the first
      occurrence when there is none at the front. */
  lemma MatchStep(s: string, pat: string, k: nat)
    requires s != [] && !StartsWith(s, pat)
    requires k + |pat| <= |s[1..]| && s[1..][k..k + |pat|] == pat
    requires forall j :: 0 <= j < k ==> !StartsWith(s[1..][j..], pat)
    ensures k + 1 + |pat| <= |s| && s[k + 1..k + 1 + |pat|] == pat
    ensures forall j :: 0 <= j < k + 1 ==> !StartsWith(s[j..], pat)
  {
    DropFirst(s);
    assert s[k + 1..k + 1 + |pat|] == s[1..][k..k + |pat|];
  }

  /** `s.replace(pat, rep)` with a string pattern: only the first occurrence
      is replaced. */
  function ReplaceFirst(s: string, pat: string, rep: string): string {
    match IndexOf(s, pat)
    case None => s
    case Some(k) => s[..k] + rep + s[k + |pat|..]
  }

  /** When `s` starts with `pat`, `s.replace(pat, "")` cuts exactly that
      prefix off. */
  lemma ReplaceFirstAtStart(s: string, pat: string)
    requires StartsWith(s, pat)
    ensures ReplaceFirst(s, pat, "") == s[|pat|..]
  {
  }

  /** No two adjacent asterisks. */
  predicate NoDoubleStar(s: string) {
    forall i :: 0 <= i < |s| - 1 ==> s[i] != '*' || s[i + 1] != '*'
  }

  /** The characters of `s` other than `*`, in order. */
  function NonStars(s: string): string {
    if s == [] then []
    else (if s[0] == '*' then [] else [s[0]]) + NonStars(s[1..])
  }

  /** `s.replace(/\*\*\/g, "")`: occurrences of `**` are removed scanning
      left to right without overlap, so `***` leaves one `*`. */
  function RemoveDoubleStars(s: string): string {
    if |s| >= 2 && s[0] == '*' && s[1] == '*' then RemoveDoubleStars(s[2..])
    else if s == [] then []
    else [s[0]] + RemoveDoubleStars(s[1..])
  }

  /** After removing `**` pairs no `**` remains, every other character
      survives in order, and a first character other than `*` stays first. */
  lemma {:induction false} RemoveDoubleStarsSpec(s: string)
    ensures |RemoveDoubleStars(s)| <= |s|
    ensures NoDoubleStar(RemoveDoubleStars(s))
    ensures NonStars(RemoveDoubleStars(s)) == NonStars(s)
    ensures s != [] && s[0] != '*' ==> RemoveDoubleStars(s) != [] && RemoveDoubleStars(s)[0] == s[0]
  {
    var r := RemoveDoubleStars(s);
    if |s| >= 2 && s[0] == '*' && s[1] == '*' {
      RemoveDoubleStarsSpec(s[2..]);
      assert NonStars(s) == NonStars(s[1..]);
      assert NonStars(s[1..]) == NonStars(s[2..]);
    } else if s != [] {
      var t := RemoveDoubleStars(s[1..]);
      RemoveDoubleStarsSpec(s[1..]);
      assert r == [s[0]] + t;
      assert r[1..] == t;
      assert NonStars(r) == (if s[0] == '*' then [] else [s[0]]) + NonStars(t);
      if s[0] == '*' {
        // the next character is not `*`, so it cannot pair with this one
        assert |s| >= 2 ==> s[1] != '*';
        assert t != [] ==> t[0] == s[1];
      }
      forall i | 0 <= i < |r| - 1 ensures r[i] != '*' || r[i + 1] != '*' {
        if i > 0 {
          assert r[i] == t[i - 1] && r[i + 1] == t[i];
        }
      }
    }
  }

  /** `k` asterisks. */
  function Stars(k: nat): string {
    if k == 0 then [] else ['*'] + Stars(k - 1)
  }

  /** A line without `**` is left exactly as it is, lone asterisks
      included. */
  lemma {:induction false} NoPairUnchanged(s: string)
    requires NoDoubleStar(s)
    ensures RemoveDoubleStars(s) == s
  {
    if s != [] {
      assert !(|s| >= 2 && s[0] == '*' && s[1] == '*');
      assert NoDoubleStar(s[1..]) by {
        forall i | 0 <= i < |s[1..]| - 1 ensures s[1..][i] != '*' || s[1..][i + 1] != '*' {
          assert s[1..][i] == s[i + 1] && s[1..][i + 1] == s[i + 2];
        }
      }
      NoPairUnchanged(s[1..]);
      assert s == [s[0]] + s[1..];
    }
  }

  /** A run of `k` asterisks, followed by anything that does not start with
      one, keeps `k % 2` of them: the pairs are removed left to right and an
      odd run leaves its last asterisk. */
  lemma {:induction false} StarRun(k: nat, t: string)
    requires t == [] || t[0] != '*'
    ensures RemoveDoubleStars(Stars(k) + t) == Stars(k % 2) + RemoveDoubleStars(t)
  {
    if k >= 2 {
      var s := Stars(k) + t;
      assert Stars(k) == ['*', '*'] + Stars(k - 2);
      assert s[0] == '*' && s[1] == '*';
      assert s[2..] == Stars(k - 2) + t;
      StarRun(k - 2, t);
      assert k % 2 == (k - 2) % 2;
    } else if k == 1 {
      var s := Stars(1) + t;
      assert s == ['*'] + t;
      assert !(|s| >= 2 && s[1] == '*');
      assert s[1..] == t;
    } else {
      assert Stars(0) + t == t;
    }
  }

  /** Each maximal run of whitespace becomes one underscore (the global
      replacement of `\s+` by `_`). The result holds no whitespace, is never
      longer than `s`, is empty only for the empty input, and leaves a
      whitespace-free input alone; `UnderscoreRunPrefix` and
      `UnderscoreWordPrefix` give its value on every input. */
  function UnderscoreWhitespaceRuns(s: string): (r: string)
    ensures NoWhitespace(r)
    ensures |r| <= |s|
    ensures r == [] <==> s == []
    ensures NoWhitespace(s) ==> r == s
    decreases |s|
  {
    if s == [] then
      []
    else if IsWhitespace(s[0]) then
      var t := TrimStart(s);
      assert |t| < |s|;
      "_" + UnderscoreWhitespaceRuns(t)
    else
      assert NoWhitespace(s) ==> NoWhitespace(s[1..]);
      [s[0]] + UnderscoreWhitespaceRuns(s[1..])
  }

  /** The base of every exported filename: whitespace runs replaced by `_`,
      then lower-cased. It never contains whitespace. */
  function FilenameBase(title: string): (r: string)
    ensures NoWhitespace(r)
    ensures |r| <= |title|
    ensures r == [] <==> title == []
    ensures NoWhitespace(title) ==> r == ToLower(title)
  {
    ToLower(UnderscoreWhitespaceRuns(title))
  }

  /** Lower-casing works character by character. */
  lemma ToLowerConcat(a: string, b: string)
    ensures ToLower(a + b) == ToLower(a) + ToLower(b)
  {
  }

  /** A whitespace-free word at the front of a title is lower-cased into
      the base. */
  lemma FilenameBaseWord(x: string, rest: string)
    requires NoWhitespace(x)
    ensures FilenameBase(x + rest) == ToLower(x) + FilenameBase(rest)
  {
    UnderscoreWordPrefix(x, rest);
    ToLowerConcat(x, UnderscoreWhitespaceRuns(rest));
  }

  /** A whitespace run at the front of a title becomes one `_` of the
      base. Together with `FilenameBaseWord` and the empty title this fixes
      the base of every title. */
  lemma FilenameBaseRun(w: string, rest: string)
    requires w != [] && AllWhitespace(w)
    requires rest == [] || !IsWhitespace(rest[0])
    ensures FilenameBase(w + rest) == "_" + FilenameBase(rest)
  {
    UnderscoreRunPrefix(w, rest);
    ToLowerConcat("_", UnderscoreWhitespaceRuns(rest));
  }

  /** The default name `autobiography` is its own file name base. */
  lemma DefaultNameBase()
    ensures FilenameBase("autobiography") == "autobiography"
  {
    LowerWordFixed("autobiography");
  }

  /** Trimming the front of a whitespace run followed by a word leaves the
      word. */
  lemma {:induction false} TrimStartRun(w: string, rest: string)
    requires AllWhitespace(w)
    requires rest == [] || !IsWhitespace(rest[0])
    ensures TrimStart(w + rest) == rest
  {
    if w != [] {
      assert (w + rest)[1..] == w[1..] + rest;
      TrimStartRun(w[1..], rest);
    }
  }

  /** A whitespace run at the front becomes a single underscore. */
  lemma UnderscoreRunPrefix(w: string, rest: string)
    requires w != [] && AllWhitespace(w)
    requires rest == [] || !IsWhitespace(rest[0])
    ensures UnderscoreWhitespaceRuns(w + rest) == "_" + UnderscoreWhitespaceRuns(rest)
  {
    TrimStartRun(w, rest);
  }

  /** A character that is not whitespace is copied. */
  lemma UnderscoreCopies(s: string)
    requires s != [] && !IsWhitespace(s[0])
    ensures UnderscoreWhitespaceRuns(s) == [s[0]] + UnderscoreWhitespaceRuns(s[1..])
  {
  }

  /** A whitespace-free word at the front is copied unchanged. */
  lemma {:induction false} UnderscoreWordPrefix(x: string, rest: string)
    requires NoWhitespace(x)
    ensures UnderscoreWhitespaceRuns(x + rest) == x + UnderscoreWhitespaceRuns(rest)
  {
    if x != [] {
      var s := x + rest;
      assert UnderscoreWhitespaceRuns(s) == [x[0]] + UnderscoreWhitespaceRuns(x[1..] + rest) by {
        assert s[0] == x[0];
        assert s[1..] == x[1..] + rest;
        UnderscoreCopies(s);
      }
      assert NoWhitespace(x[1..]) by {
        forall i | 0 <= i < |x| - 1 ensures !IsWhitespace(x[1..][i]) {
          assert x[1..][i] == x[i + 1];
        }
      }
      UnderscoreWordPrefix(x[1..], rest);
      ConsSplit(x, UnderscoreWhitespaceRuns(rest));
    } else {
      assert x + rest == rest;
    }
  }

  /** A trailing whitespace run becomes a trailing underscore. */
  lemma {:induction false} UnderscoreTrailingRun(s: string)
    requires s != [] && IsWhitespace(s[|s| - 1])
    ensures UnderscoreWhitespaceRuns(s) != []
    ensures UnderscoreWhitespaceRuns(s)[|UnderscoreWhitespaceRuns(s)| - 1] == '_'
    decreases |s|
  {
    if IsWhitespace(s[0]) {
      var t := TrimStart(s);
      if t != [] {
        assert t[|t| - 1] == s[|s| - 1];
        UnderscoreTrailingRun(t);
      }
    } else {
      assert s[1..][|s| - 2] == s[|s| - 1];
      UnderscoreTrailingRun(s[1..]);
    }
  }

  /** The title is not trimmed before the filename is derived: a title that
      starts (ends) with whitespace gives a base that starts (ends) with an
      underscore, so `"  My   Life  "` gives `"_my_life_"`. */
  lemma FilenameBaseKeepsOuterRuns(title: string)
    requires title != []
    ensures IsWhitespace(title[0]) ==> FilenameBase(title)[0] == '_'
    ensures IsWhitespace(title[|title| - 1]) ==>
              FilenameBase(title)[|FilenameBase(title)| - 1] == '_'
  {
    var u := UnderscoreWhitespaceRuns(title);
    var b := FilenameBase(title);
    assert |b| == |u| && u != [];
    assert forall i :: 0 <= i < |u| ==> b[i] == LowerChar(u[i]);
    if IsWhitespace(title[0]) {
      assert u[0] == '_';
    }
    if IsWhitespace(title[|title| - 1]) {
      UnderscoreTrailingRun(title);
      assert u[|u| - 1] == '_';
    }
  }

  // ---------------------------------------------------------------------
  // Lines
  // ---------------------------------------------------------------------

  /** Number of occurrences of `c` in `s`. */
  function Count(s: string, c: char): nat {
    if s == [] then 0 else (if s[0] == c then 1 else 0) + Count(s[1..], c)
  }

  /** `lines.join("\n")`. */
  function JoinLines(lines: seq<string>): string {
    if lines == [] then ""
    else if |lines| == 1 then lines[0]
    else lines[0] + "\n" + JoinLines(lines[1..])
  }

  /** `s.split("\n")`: one piece more than there are newlines, no piece
      holds a newline, and joining the pieces gives `s` back (so the empty
      string splits into one empty line). */
  function SplitLines(s: string): (r: seq<string>)
    ensures |r| == Count(s, '\n') + 1
    ensures forall i :: 0 <= i < |r| ==> '\n' !in r[i]
    ensures JoinLines(r) == s
  {
    if s == [] then
      [""]
    else
      var rest := SplitLines(s[1..]);
      if s[0] == '\n' then
        assert ([""] + rest)[1..] == rest;
        [""] + rest
      else
        var r := [[s[0]] + rest[0]] + rest[1..];
        assert r[1..] == rest[1..];
        assert |rest| > 1 ==> JoinLines(rest) == rest[0] + "\n" + JoinLines(rest[1..]);
        assert forall i :: 1 <= i < |r| ==> r[i] == rest[i];
        r
  }

  /** None of the lines holds a line break. */
  predicate NoLineBreaks(lines: seq<string>) {
    forall i :: 0 <= i < |lines| ==> '\n' !in lines[i]
  }

  lemma NoLineBreaksConcat(a: seq<string>, b: seq<string>)
    ensures NoLineBreaks(a + b) <==> NoLineBreaks(a) && NoLineBreaks(b)
  {
    if NoLineBreaks(a) && NoLineBreaks(b) {
      forall i | 0 <= i < |a + b| ensures '\n' !in (a + b)[i] {
        if i >= |a| {
          assert (a + b)[i] == b[i - |a|];
        }
      }
    }
    if NoLineBreaks(a + b) {
      forall i | 0 <= i < |a| ensures '\n' !in a[i] {
        assert (a + b)[i] == a[i];
      }
      forall i | 0 <= i < |b| ensures '\n' !in b[i] {
        assert (a + b)[|a| + i] == b[i];
      }
    }
  }

  /** A line without newlines stays one line. */
  lemma {:induction false} SplitSingle(a: string)
    requires '\n' !in a
    ensures SplitLines(a) == [a]
  {
    if a != [] {
      assert '\n' !in a[1..];
      SplitSingle(a[1..]);
      assert [a[0]] + a[1..] == a;
    }
  }

  /** Splitting at the first newline. */
  lemma {:induction false} SplitAtFirstNewline(a: string, b: string)
    requires '\n' !in a
    ensures SplitLines(a + "\n" + b) == [a] + SplitLines(b)
  {
    var s := a + "\n" + b;
    if a == [] {
      assert s[1..] == b;
    } else {
      assert s[1..] == a[1..] + "\n" + b;
      assert '\n' !in a[1..];
      SplitAtFirstNewline(a[1..], b);
      assert [a[0]] + a[1..] == a;
    }
  }

  /** Splitting the join of newline-free lines gives the lines back. */
  lemma {:induction false} SplitJoin(lines: seq<string>)
    requires |lines| >= 1
    requires NoLineBreaks(lines)
    ensures SplitLines(JoinLines(lines)) == lines
  {
    if |lines| == 1 {
      SplitSingle(lines[0]);
    } else {
      SplitJoin(lines[1..]);
      SplitAtFirstNewline(lines[0], JoinLines(lines[1..]));
      assert [lines[0]] + lines[1..] == lines;
    }
  }

  /** The join ends with the last line. */
  lemma {:induction false} JoinEndsWithLast(lines: seq<string>)
    requires |lines| >= 1
    ensures |lines[|lines| - 1]| <= |JoinLines(lines)|
    ensures JoinLines(lines)[|JoinLines(lines)| - |lines[|lines| - 1]|..] == lines[|lines| - 1]
  {
    if |lines| > 1 {
      JoinEndsWithLast(lines[1..]);
      var j := JoinLines(lines[1..]);
      var last := lines[|lines| - 1];
      assert lines[1..][|lines[1..]| - 1] == last;
      var whole := lines[0] + "\n" + j;
      assert whole[|whole| - |last|..] == j[|j| - |last|..];
    }
  }

  /** Joining two non-empty groups of lines is joining each group and
      putting one newline between them. */
  lemma {:induction false} JoinLinesConcat(a: seq<string>, b: seq<string>)
    requires |a| >= 1 && |b| >= 1
    ensures JoinLines(a + b) == JoinLines(a) + "\n" + JoinLines(b)
  {
    if |a| == 1 {
      assert (a + b)[1..] == b;
    } else {
      JoinLinesConcat(a[1..], b);
      assert (a + b)[1..] == a[1..] + b;
    }
  }

  /** Splicing the join of a group of lines into a list of lines gives the
      same text as splicing in the lines themselves. */
  lemma JoinLinesFlatten(a: seq<string>, b: seq<string>, c: seq<string>)
    requires |a| >= 1 && |b| >= 1 && |c| >= 1
    ensures JoinLines(a + [JoinLines(b)] + c) == JoinLines(a + b + c)
  {
    calc {
      JoinLines(a + [JoinLines(b)] + c);
      { assert a + [JoinLines(b)] + c == a + ([JoinLines(b)] + c); }
      JoinLines(a + ([JoinLines(b)] + c));
      { JoinLinesConcat(a, [JoinLines(b)] + c); }
      JoinLines(a) + "\n" + JoinLines([JoinLines(b)] + c);
      { JoinLinesConcat([JoinLines(b)], c); }
      JoinLines(a) + "\n" + (JoinLines(b) + "\n" + JoinLines(c));
      { JoinLinesConcat(b, c); }
      JoinLines(a) + "\n" + JoinLines(b + c);
      { JoinLinesConcat(a, b + c); }
      JoinLines(a + (b + c));
      { assert a + (b + c) == a + b + c; }
      JoinLines(a + b + c);
    }
  }

  /** A join of several lines whose first line is empty opens with a line
      break. */
  lemma JoinOpensWithBreak(lines: seq<string>)
    requires |lines| >= 2 && lines[0] == ""
    ensures |JoinLines(lines)| > |JoinLines(lines[1..])|
    ensures JoinLines(lines)[0] == '\n'
  {
    assert JoinLines(lines) == "" + "\n" + JoinLines(lines[1..]);
  }

  /** A join whose first line is empty opens with a line break and ends
      with its last line. */
  lemma JoinFramed(lines: seq<string>, last: string)
    requires |lines| >= 2 && lines[0] == "" && lines[|lines| - 1] == last
    ensures |JoinLines(lines)| > |last|
    ensures JoinLines(lines)[0] == '\n'
    ensures JoinLines(lines)[|JoinLines(lines)| - |last|..] == last
  {
    JoinOpensWithBreak(lines);
    JoinEndsWithLast(lines);
    JoinEndsWithLast(lines[1..]);
    assert lines[1..][|lines[1..]| - 1] == last;
  }

  /** The join starts with the first line. */
  lemma JoinStartsWithFirst(lines: seq<string>)
    requires |lines| >= 1
    ensures StartsWith(JoinLines(lines), lines[0])
  {
    if |lines| > 1 {
      assert (lines[0] + "\n" + JoinLines(lines[1..]))[..|lines[0]|] == lines[0];
    }
  }

  // ---------------------------------------------------------------------
  // Numbers and lengths
  // ---------------------------------------------------------------------

  function DigitChar(d: nat): char
    requires d < 10
  {
    ('0' as int + d) as char
  }

  predicate IsDigit(c: char) {
    '0' <= c <= '9'
  }

  function DigitValue(c: char): nat
    requires IsDigit(c)
  {
    c as int - '0' as int
  }

  /** The value of a string of decimal digits. */
  function DecimalValue(s: string): nat
    requires forall i :: 0 <= i < |s| ==> IsDigit(s[i])
  {
    if s == [] then 0
    else
      assert IsDigit(s[|s| - 1]);
      DecimalValue(s[..|s| - 1]) * 10 + DigitValue(s[|s| - 1])
  }

  /** `String(n)` for a natural number: its decimal digits, which read back
      as `n`, with no leading zero except in `"0"` itself. */
  function NatToString(n: nat): (r: string)
    ensures r != []
    ensures forall i :: 0 <= i < |r| ==> IsDigit(r[i])
    ensures DecimalValue(r) == n
    ensures r[0] == '0' <==> n == 0
    ensures n == 0 ==> r == "0"
  {
    if n < 10 then
      [DigitChar(n)]
    else
      var r := NatToString(n / 10) + [DigitChar(n % 10)];
      assert r[..|r| - 1] == NatToString(n / 10);
      r
  }

  /** The longest prefix of `s` made of decimal digits. */
  function LeadingDigits(s: string): (r: string)
    ensures StartsWith(s, r)
    ensures forall i :: 0 <= i < |r| ==> IsDigit(r[i])
    ensures |r| == |s| || !IsDigit(s[|r|])
  {
    if s != [] && IsDigit(s[0]) then
      var r := [s[0]] + LeadingDigits(s[1..]);
      assert s == [s[0]] + s[1..];
      r
    else
      []
  }

  /** A run of digits followed by a non-digit is exactly the leading digits
      of the whole. */
  lemma {:induction false} LeadingDigitsOf(d: string, rest: string)
    requires forall i :: 0 <= i < |d| ==> IsDigit(d[i])
    requires rest == [] || !IsDigit(rest[0])
    ensures LeadingDigits(d + rest) == d
  {
    if d == [] {
      assert d + rest == rest;
    } else {
      assert (d + rest)[1..] == d[1..] + rest;
      LeadingDigitsOf(d[1..], rest);
      assert [d[0]] + d[1..] == d;
    }
  }

  /** A character outside the Basic Multilingual Plane, which UTF-16 writes
      as a surrogate pair. */
  predicate Astral(c: char) {
    c as int >= 0x1_0000
  }

  /** For each position of `s`, whether its character is astral. */
  function AstralFlags(s: string): seq<bool> {
    seq(|s|, i requires 0 <= i < |s| => Astral(s[i]))
  }

  /** `s.length`: the number of UTF-16 code units, one per character plus
      one more for each astral character. */
  function Utf16Length(s: string): (r: nat)
    ensures r == |s| + multiset(AstralFlags(s))[true]
    ensures |s| <= r <= 2 * |s|
  {
    if s == [] then 0
    else
      assert AstralFlags(s) == [Astral(s[0])] + AstralFlags(s[1..]);
      (if s[0] as int >= 0x1_0000 then 2 else 1) + Utf16Length(s[1..])
  }
}
