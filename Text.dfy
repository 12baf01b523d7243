/**
 * The handful of Python string operations the translator relies on:
 * `str.strip`, `str.rstrip`, `str.split()` (no argument), `str.split('//')[0]`,
 * `str.isnumeric` and the decimal formatting of an `int` in an f-string.
 * Each is defined by recursion and characterised by its contract.
 */
module Text {

  /** Python's `str.isspace` for one character (the characters `str.split()`
      and `str.strip()` treat as whitespace when called without arguments). */
  predicate IsSpace(c: char) {
    ('\t' <= c <= '\r') || ('\U{1C}' <= c <= ' ') || c == '\U{85}' || c == '\U{A0}' ||
    c == '\U{1680}' || ('\U{2000}' <= c <= '\U{200A}') || c == '\U{2028}' || c == '\U{2029}' ||
    c == '\U{202F}' || c == '\U{205F}' || c == '\U{3000}'
  }

  predicate AllSpace(s: string) {
    forall k :: 0 <= k < |s| ==> IsSpace(s[k])
  }

  predicate NoSpace(s: string) {
    forall k :: 0 <= k < |s| ==> !IsSpace(s[k])
  }

  /** `s.rstrip()`: the longest prefix of `s` that does not end in whitespace. */
  function RStrip(s: string): (r: string)
    ensures |r| <= |s| && r == s[..|r|]
    ensures AllSpace(s[|r|..])
    ensures r == [] || !IsSpace(r[|r| - 1])
  {
    if s == [] || !IsSpace(s[|s| - 1]) then s
    else
      var r := RStrip(s[..|s| - 1]);
      AllSpaceSnoc(s, |r|);
      r
  }

  lemma AllSpaceSnoc(s: string, n: nat)
    requires n < |s| && AllSpace(s[..|s| - 1][n..]) && IsSpace(s[|s| - 1])
    ensures AllSpace(s[n..]) && s[..|s| - 1][..n] == s[..n]
  {
    forall k | 0 <= k < |s| - n ensures IsSpace(s[n..][k]) {
      if n + k < |s| - 1 {
        assert s[n..][k] == s[..|s| - 1][n..][k];
      }
    }
  }

  /** `s.lstrip()`: the longest suffix of `s` that does not start with whitespace. */
  function LStrip(s: string): (r: string)
    ensures |r| <= |s| && r == s[|s| - |r|..]
    ensures AllSpace(s[..|s| - |r|])
    ensures r == [] || !IsSpace(r[0])
  {
    if s == [] || !IsSpace(s[0]) then s
    else
      var r := LStrip(s[1..]);
      LStripStep(s, s[1..], r);
      r
  }

  /** One step of `LStrip`: a leading blank is dropped. */
  lemma LStripStep(s: string, t: string, r: string)
    requires s != [] && IsSpace(s[0]) && t == s[1..]
    requires |r| <= |t| && r == t[|t| - |r|..] && AllSpace(t[..|t| - |r|])
    ensures |r| <= |s| && r == s[|s| - |r|..] && AllSpace(s[..|s| - |r|])
  {
    var n := |s| - |r|;
    assert t[|t| - |r|..] == s[n..];
    forall k | 0 <= k < n ensures IsSpace(s[..n][k]) {
      if k > 0 {
        assert s[..n][k] == t[..|t| - |r|][k - 1];
      }
    }
  }

  /** `s.strip()`. */
  function Strip(s: string): string {
    LStrip(RStrip(s))
  }

  /** Stripping leaves nothing exactly when the string is all whitespace, and
      otherwise leaves a factor of `s` that starts and ends with a non-space
      character, everything cut off on either side being whitespace. */
  lemma StripSpec(s: string)
    ensures Strip(s) == [] <==> AllSpace(s)
    ensures Strip(s) != [] ==> !IsSpace(Strip(s)[0]) && !IsSpace(Strip(s)[|Strip(s)| - 1])
    ensures exists i :: 0 <= i <= |s| - |Strip(s)| && s[i..i + |Strip(s)|] == Strip(s) &&
                        AllSpace(s[..i]) && AllSpace(s[i + |Strip(s)|..])
  {
    StripEmpty(s);
    StripEnds(s);
    var i := StripFactor(s);
  }

  lemma StripEmpty(s: string)
    ensures Strip(s) == [] <==> AllSpace(s)
  {
    var r := RStrip(s);
    if LStrip(r) == [] {
      assert r == r[..|r|];
      assert s == r + s[|r|..];
      AllSpaceAppend(r, s[|r|..]);
    }
    if AllSpace(s) {
      RStripOfAllSpace(s);
    }
  }

  lemma StripEnds(s: string)
    ensures Strip(s) != [] ==> !IsSpace(Strip(s)[0]) && !IsSpace(Strip(s)[|Strip(s)| - 1])
  {
    var r := RStrip(s);
    var t := LStrip(r);
    if t != [] {
      assert t[|t| - 1] == r[|r| - 1];
    }
  }

  lemma StripFactor(s: string) returns (i: nat)
    ensures i + |Strip(s)| <= |s| && s[i..i + |Strip(s)|] == Strip(s)
    ensures AllSpace(s[..i]) && AllSpace(s[i + |Strip(s)|..])
  {
    var r := RStrip(s);
    var t := LStrip(r);
    assert Strip(s) == t;
    i := |r| - |t|;
    assert i + |t| == |r|;
    PrefixParts(s, |r|, i);
    assert r[..i] == s[..i];
    assert r[i..] == s[i..i + |t|];
  }

  lemma PrefixParts(s: string, n: nat, i: nat)
    requires i <= n <= |s|
    ensures s[..n][..i] == s[..i] && s[..n][i..] == s[i..n]
  {
  }

  lemma {:induction false} RStripOfAllSpace(s: string)
    requires AllSpace(s)
    ensures RStrip(s) == []
    decreases |s|
  {
    if s != [] {
      assert IsSpace(s[|s| - 1]);
      RStripOfAllSpace(s[..|s| - 1]);
    }
  }

  lemma AllSpaceAppend(a: string, b: string)
    requires AllSpace(a) && AllSpace(b)
    ensures AllSpace(a + b)
  {
    forall k | 0 <= k < |a + b| ensures IsSpace((a + b)[k]) {
      if k >= |a| { assert (a + b)[k] == b[k - |a|]; }
    }
  }

  /** The longest prefix of `s` holding no whitespace. */
  function FirstWord(s: string): (w: string)
    ensures |w| <= |s| && w == s[..|w|] && NoSpace(w)
    ensures |w| == |s| || IsSpace(s[|w|])
    ensures s != [] && !IsSpace(s[0]) ==> w != []
  {
    if s == [] || IsSpace(s[0]) then []
    else [s[0]] + FirstWord(s[1..])
  }

  /** `s.split()`: the maximal runs of non-whitespace characters, in order. */
  function Fields(s: string): (r: seq<string>)
    ensures Words(r)
    decreases |s|
  {
    var t := LStrip(s);
    if t == [] then []
    else
      var w := FirstWord(t);
      var rest := Fields(t[|w|..]);
      WordsCons(w, rest);
      [w] + rest
  }

  /** Every element is a non-empty run of non-whitespace characters. */
  predicate Words(ws: seq<string>) {
    forall k :: 0 <= k < |ws| ==> ws[k] != [] && NoSpace(ws[k])
  }

  lemma WordsCons(w: string, ws: seq<string>)
    requires w != [] && NoSpace(w) && Words(ws)
    ensures Words([w] + ws)
  {
    forall k | 0 <= k < |[w] + ws| ensures ([w] + ws)[k] != [] && NoSpace(([w] + ws)[k]) {
      if k > 0 { assert ([w] + ws)[k] == ws[k - 1]; }
    }
  }

  /** Fields joined with one blank between them (the inverse of `Fields`). */
  function Join(ws: seq<string>): string {
    if ws == [] then ""
    else if |ws| == 1 then ws[0]
    else ws[0] + " " + Join(ws[1..])
  }

  /** Concatenation without separators. */
  function Concat(ws: seq<string>): string {
    if ws == [] then "" else ws[0] + Concat(ws[1..])
  }

  /** The non-whitespace characters of `s`, in order. */
  function NonSpace(s: string): string {
    if s == [] then ""
    else (if IsSpace(s[0]) then "" else [s[0]]) + NonSpace(s[1..])
  }

  lemma {:induction false} NonSpaceAppend(a: string, b: string)
    ensures NonSpace(a + b) == NonSpace(a) + NonSpace(b)
  {
    if a != [] {
      assert (a + b)[0] == a[0];
      assert (a + b)[1..] == a[1..] + b;
      NonSpaceAppend(a[1..], b);
    } else {
      assert a + b == b;
    }
  }

  lemma {:induction false} NonSpaceOfSpace(s: string)
    requires AllSpace(s)
    ensures NonSpace(s) == ""
  {
    if s != [] { NonSpaceOfSpace(s[1..]); }
  }

  lemma {:induction false} NonSpaceOfWord(s: string)
    requires NoSpace(s)
    ensures NonSpace(s) == s
  {
    if s != [] { NonSpaceOfWord(s[1..]); }
  }

  /** Splitting loses exactly the whitespace: the fields, concatenated, are
      the non-whitespace characters of the input. */
  lemma {:induction false} FieldsKeepNonSpace(s: string)
    ensures Concat(Fields(s)) == NonSpace(s)
    decreases |s|
  {
    if LStrip(s) == [] {
      FieldsUnfold(s);
      NonSpaceOfLStrip(s);
    } else {
      var w, u := FieldsHead(s);
      FieldsKeepNonSpace(u);
      ConcatCons(w, Fields(u));
    }
  }

  /** The first field of a string that has one, and what follows it. */
  lemma FieldsHead(s: string) returns (w: string, u: string)
    requires LStrip(s) != []
    ensures Fields(s) == [w] + Fields(u) && NonSpace(s) == w + NonSpace(u)
    ensures |u| < |s|
  {
    var t := LStrip(s);
    w := FirstWord(t);
    u := t[|w|..];
    FieldsUnfold(s);
    NonSpaceOfLStrip(s);
    NonSpaceOfHead(t, w, u);
  }

  lemma NonSpaceOfHead(t: string, w: string, u: string)
    requires |w| <= |t| && w == t[..|w|] && u == t[|w|..] && NoSpace(w)
    ensures NonSpace(t) == w + NonSpace(u)
  {
    assert t == w + u;
    NonSpaceAppend(w, u);
    NonSpaceOfWord(w);
  }

  lemma NonSpaceOfLStrip(s: string)
    ensures NonSpace(LStrip(s)) == NonSpace(s)
  {
    var t := LStrip(s);
    var sp := s[..|s| - |t|];
    assert s == sp + t;
    NonSpaceAppend(sp, t);
    NonSpaceOfSpace(sp);
  }

  lemma ConcatCons(w: string, ws: seq<string>)
    ensures Concat([w] + ws) == w + Concat(ws)
  {
    assert ([w] + ws)[1..] == ws;
  }

  /** A string has no fields exactly when it is all whitespace. */
  lemma FieldsEmpty(s: string)
    ensures Fields(s) == [] <==> AllSpace(s)
  {
    var t := LStrip(s);
    if t == [] {
      assert s == s[..|s| - |t|];
    }
  }

  lemma {:induction false} LStripIdempotentOnSpaces(sp: string, s: string)
    requires AllSpace(sp)
    ensures LStrip(sp + s) == LStrip(s)
  {
    if sp != [] {
      assert (sp + s)[0] == sp[0] && IsSpace(sp[0]);
      assert (sp + s)[1..] == sp[1..] + s;
      LStripIdempotentOnSpaces(sp[1..], s);
    } else {
      assert sp + s == s;
    }
  }

  /** Trailing whitespace does not change the fields. */
  lemma DropOfAppend(a: string, b: string, n: nat)
    requires n <= |a|
    ensures (a + b)[n..] == a[n..] + b
  {
  }

  lemma LStripOfSpace(sp: string)
    requires AllSpace(sp)
    ensures LStrip(sp) == []
  {
  }

  lemma {:induction false} FieldsTrailingSpace(s: string, sp: string)
    requires AllSpace(sp)
    ensures Fields(s + sp) == Fields(s)
    decreases |s|
  {
    var t := LStrip(s);
    var i := |s| - |t|;
    assert s + sp == s[..i] + (t + sp);
    LStripIdempotentOnSpaces(s[..i], t + sp);
    assert LStrip(s + sp) == LStrip(t + sp);
    FieldsUnfold(s + sp);
    FieldsUnfold(s);
    if t == [] {
      assert t + sp == sp;
      LStripOfSpace(sp);
    } else {
      assert LStrip(t + sp) == t + sp by { assert (t + sp)[0] == t[0]; }
      var w := FirstWord(t);
      FirstWordOfAppend(t, sp);
      DropOfAppend(t, sp, |w|);
      assert |w| > 0 by { assert !IsSpace(t[0]); }
      FieldsTrailingSpace(t[|w|..], sp);
    }
  }

  lemma {:induction false} FirstWordOfAppend(t: string, sp: string)
    requires t != [] && !IsSpace(t[0])
    requires AllSpace(sp)
    ensures FirstWord(t + sp) == FirstWord(t)
  {
    if |t| == 1 {
      assert (t + sp)[1..] == sp;
      if sp != [] { assert IsSpace(sp[0]); }
    } else if IsSpace(t[1]) {
      assert (t + sp)[1..] == t[1..] + sp;
    } else {
      assert (t + sp)[1..] == t[1..] + sp;
      FirstWordOfAppend(t[1..], sp);
    }
  }

  /** Leading and trailing whitespace do not change the fields, so splitting
      the stripped string gives the fields of the original. */
  lemma FieldsOfStrip(s: string)
    ensures Fields(Strip(s)) == Fields(s)
  {
    var r, sp := RStripSplit(s);
    FieldsTrailingSpace(r, sp);
    var sp2, t := LStripSplit(r);
    FieldsLeadingSpace(sp2, t);
  }

  /** `s` is its right-stripped part followed by whitespace. */
  lemma RStripSplit(s: string) returns (r: string, sp: string)
    ensures r == RStrip(s) && s == r + sp && AllSpace(sp)
  {
    r := RStrip(s);
    sp := s[|r|..];
  }

  /** `s` is whitespace followed by its left-stripped part. */
  lemma LStripSplit(s: string) returns (sp: string, t: string)
    ensures t == LStrip(s) && s == sp + t && AllSpace(sp)
  {
    t := LStrip(s);
    sp := s[..|s| - |t|];
  }

  lemma {:induction false} FirstWordOfJoin(w: string, rest: string)
    requires w != [] && NoSpace(w)
    requires rest == [] || IsSpace(rest[0])
    ensures FirstWord(w + rest) == w
  {
    assert (w + rest)[1..] == w[1..] + rest;
    if |w| > 1 {
      FirstWordOfJoin(w[1..], rest);
    } else {
      assert w[1..] + rest == rest;
    }
  }

  /** `Fields` undoes `Join` for any list of non-empty whitespace-free words. */
  lemma {:induction false} FieldsOfJoin(ws: seq<string>)
    requires Words(ws)
    ensures Fields(Join(ws)) == ws
  {
    if ws == [] {
    } else if |ws| == 1 {
      var w := ws[0];
      FirstWordOfJoin(w, []);
      assert w + [] == w;
      FieldsUnfold(w);
      assert w[|w|..] == [];
      FieldsUnfold([]);
    } else {
      FieldsOfJoin(ws[1..]);
      FieldsOfWordThenRest(ws[0], Join(ws[1..]));
    }
  }

  /** A word, a blank, and the rest: the word is the first field. */
  lemma FieldsOfWordThenRest(w: string, rest: string)
    requires w != [] && NoSpace(w)
    ensures Fields(w + " " + rest) == [w] + Fields(rest)
  {
    var j := WordThenRest(w, rest);
    FieldsOfNonSpaceStart(j);
    FieldsLeadingSpace(" ", rest);
  }

  lemma WordThenRest(w: string, rest: string) returns (j: string)
    requires w != [] && NoSpace(w)
    ensures j == w + " " + rest && j != [] && !IsSpace(j[0])
    ensures FirstWord(j) == w && j[|w|..] == " " + rest
  {
    j := w + " " + rest;
    assert j == w + (" " + rest);
    FirstWordOfJoin(w, " " + rest);
    assert j[0] == w[0];
  }

  /** A string that starts with a non-space character starts with its first field. */
  lemma FieldsOfNonSpaceStart(j: string)
    requires j != [] && !IsSpace(j[0])
    ensures Fields(j) == [FirstWord(j)] + Fields(j[|FirstWord(j)|..])
  {
    assert LStrip(j) == j;
    FieldsUnfold(j);
  }

  /** Leading whitespace does not change the fields. */
  lemma FieldsLeadingSpace(sp: string, s: string)
    requires AllSpace(sp)
    ensures Fields(sp + s) == Fields(s)
  {
    LStripIdempotentOnSpaces(sp, s);
    FieldsUnfold(sp + s);
    FieldsUnfold(s);
  }

  /** One unfolding of `Fields`, stated for reuse. */
  lemma FieldsUnfold(s: string)
    ensures Fields(s) == (var t := LStrip(s); if t == [] then [] else [FirstWord(t)] + Fields(t[|FirstWord(t)|..]))
  {
  }

  /** `s.split('//')[0]`: everything before the first occurrence of `//`. */
  function BeforeComment(s: string): (r: string)
    ensures |r| <= |s| && r == s[..|r|]
    ensures forall k :: 0 <= k < |r| && k + 1 < |s| ==> !(s[k] == '/' && s[k + 1] == '/')
    ensures |r| == |s| || (|r| + 1 < |s| && s[|r|] == '/' && s[|r| + 1] == '/')
  {
    if |s| < 2 then s
    else if s[0] == '/' && s[1] == '/' then ""
    else [s[0]] + BeforeComment(s[1..])
  }

  /** The three clauses of `BeforeComment`'s contract single out its result:
      any prefix with the same properties is that result. */
  lemma BeforeCommentUnique(s: string, r: string)
    requires |r| <= |s| && r == s[..|r|]
    requires forall k :: 0 <= k < |r| && k + 1 < |s| ==> !(s[k] == '/' && s[k + 1] == '/')
    requires |r| == |s| || (|r| + 1 < |s| && s[|r|] == '/' && s[|r| + 1] == '/')
    ensures r == BeforeComment(s)
  {
  }

  /** A string with no `/` at all followed by a comment (or by nothing). */
  lemma {:induction false} BeforeCommentOfCode(t: string, tail: string)
    requires forall k :: 0 <= k < |t| ==> t[k] != '/'
    requires tail == [] || (|tail| >= 2 && tail[0] == '/' && tail[1] == '/')
    ensures BeforeComment(t + tail) == t
  {
    var s := t + tail;
    assert s[..|t|] == t;
    BeforeCommentUnique(s, t);
  }

  predicate IsDigit(c: char) {
    '0' <= c <= '9'
  }

  /** `s.isnumeric()`, for ASCII input: a non-empty string of decimal digits. */
  predicate IsNumeric(s: string) {
    |s| > 0 && forall k :: 0 <= k < |s| ==> IsDigit(s[k])
  }

  /** The value of a string of decimal digits, as `int(s)` reads it. */
  function DecimalValue(s: string): nat {
    if s == [] then 0
    else DecimalValue(s[..|s| - 1]) * 10 + DigitValue(s[|s| - 1])
  }

  function DigitValue(c: char): nat {
    if IsDigit(c) then (c as int) - ('0' as int) else 0
  }

  function DigitChar(d: nat): (c: char)
    requires d < 10
    ensures IsDigit(c) && DigitValue(c) == d
  {
    ('0' as int + d) as char
  }

  /** The text of `n` in an f-string: decimal, most significant digit first,
      no leading zero. */
  function NatToString(n: nat): (s: string)
    ensures IsNumeric(s)
    ensures s[0] == '0' ==> n == 0
  {
    if n < 10 then [DigitChar(n)]
    else NatToString(n / 10) + [DigitChar(n % 10)]
  }

  /** Reading back the printed number gives the number. */
  lemma {:induction false} NatToStringRoundTrip(n: nat)
    ensures DecimalValue(NatToString(n)) == n
  {
    var s := NatToString(n);
    if n >= 10 {
      assert s[..|s| - 1] == NatToString(n / 10);
      NatToStringRoundTrip(n / 10);
    }
  }

  /** Distinct numbers print as distinct strings. */
  lemma {:induction false} NatToStringInjective(m: nat, n: nat)
    requires NatToString(m) == NatToString(n)
    ensures m == n
  {
    NatToStringRoundTrip(m);
    NatToStringRoundTrip(n);
  }
}
