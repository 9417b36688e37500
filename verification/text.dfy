/** String helpers behind `sanitizeString` and the tag normalisation: the
    JavaScript whitespace set, `trim()`, the `/\s+/g` to single-space
    replacement, and ASCII lower-casing. */
module Text {

  /** The characters `\s` matches in a JavaScript regular expression, which
      are also the characters `String.prototype.trim` strips: tab, line
      feed, vertical tab, form feed, carriage return, space, no-break space,
      the Unicode space separators, the line and paragraph separators and the
      byte order mark. */
  predicate IsSpace(c: char) {
    || c == '\t' || c == '\n' || c == '\U{B}' || c == '\U{C}' || c == '\r' || c == ' '
    || c == '\U{A0}' || c == '\U{1680}'
    || ('\U{2000}' <= c <= '\U{200A}')
    || c == '\U{2028}' || c == '\U{2029}' || c == '\U{202F}' || c == '\U{205F}'
    || c == '\U{3000}' || c == '\U{FEFF}'
  }

  predicate NoSpaces(s: string) {
    forall i :: 0 <= i < |s| ==> !IsSpace(s[i])
  }

  predicate AllSpaces(s: string) {
    forall i :: 0 <= i < |s| ==> IsSpace(s[i])
  }

  /** Whitespace occurs only as single plain spaces. */
  predicate SingleSpaces(s: string) {
    && (forall i :: 0 <= i < |s| && IsSpace(s[i]) ==> s[i] == ' ')
    && (forall i :: 0 <= i < |s| - 1 ==> !IsSpace(s[i]) || !IsSpace(s[i + 1]))
  }

  /** The shape `sanitizeString` produces: no whitespace at either end, no
      two whitespace characters in a row, and every whitespace character a
      plain space. */
  predicate Normalized(s: string) {
    && (|s| > 0 ==> !IsSpace(s[0]) && !IsSpace(s[|s| - 1]))
    && SingleSpaces(s)
  }

  /** `s` without its leading whitespace. */
  function TrimStart(s: string): (r: string)
    ensures |r| <= |s| && r == s[|s| - |r|..]
    ensures |r| > 0 ==> !IsSpace(r[0])
    ensures forall i :: 0 <= i < |s| - |r| ==> IsSpace(s[i])
  {
    if |s| > 0 && IsSpace(s[0]) then
      var r := TrimStart(s[1..]);
      TrimStartStep(s, r);
      r
    else s
  }

  /** One step of `TrimStart`: a suffix of `s[1..]` preceded only by
      whitespace is a suffix of `s` preceded only by whitespace. */
  lemma TrimStartStep(s: string, r: string)
    requires |s| > 0 && IsSpace(s[0])
    requires |r| <= |s| - 1 && r == s[1..][|s| - 1 - |r|..]
    requires forall i :: 0 <= i < |s| - 1 - |r| ==> IsSpace(s[1..][i])
    ensures r == s[|s| - |r|..]
    ensures forall i :: 0 <= i < |s| - |r| ==> IsSpace(s[i])
  {
    forall i | 0 < i < |s| - |r|
      ensures IsSpace(s[i])
    {
      assert s[i] == s[1..][i - 1];
    }
  }

  /** `s` without its trailing whitespace. */
  function TrimEnd(s: string): (r: string)
    ensures |r| <= |s| && r == s[..|r|]
    ensures |r| > 0 ==> !IsSpace(r[|r| - 1])
    ensures forall i :: |r| <= i < |s| ==> IsSpace(s[i])
  {
    if |s| > 0 && IsSpace(s[|s| - 1]) then TrimEnd(s[..|s| - 1]) else s
  }

  /** `r` is the slice of `s` starting at `k`, with only whitespace before
      and after it. */
  predicate MiddleOf(s: string, r: string, k: nat) {
    && k + |r| <= |s|
    && r == s[k..k + |r|]
    && AllSpaces(s[..k])
    && AllSpaces(s[k + |r|..])
  }

  /** `String.prototype.trim`: the middle of `s` between its leading and
      its trailing whitespace. */
  function Trim(s: string): (r: string)
    ensures |r| <= |s|
    ensures |r| > 0 ==> !IsSpace(r[0]) && !IsSpace(r[|r| - 1])
    ensures exists k: nat :: MiddleOf(s, r, k)
  {
    var t := TrimStart(s);
    var r := TrimEnd(t);
    TrimMiddle(s, t, r, |s| - |t|);
    r
  }

  /** Trimming the end of the trimmed start leaves a middle slice of `s`
      with only whitespace around it. */
  lemma TrimMiddle(s: string, t: string, r: string, k: nat)
    requires t == TrimStart(s) && r == TrimEnd(t) && k == |s| - |t|
    ensures MiddleOf(s, r, k)
  {
    var n := |r|;
    assert t == s[k..];
    assert r == t[..n];
    SliceOfSuffix(s, k, n);
    LeadingAllSpaces(s, k);
    var post := s[k + n..];
    assert post == t[n..];
    forall i | 0 <= i < |post|
      ensures IsSpace(post[i])
    {
      assert post[i] == t[n + i];
    }
  }

  /** The whitespace `TrimStart` drops, as a prefix. */
  lemma LeadingAllSpaces(s: string, k: nat)
    requires k == |s| - |TrimStart(s)|
    ensures AllSpaces(s[..k])
  {
    var pre := s[..k];
    forall i | 0 <= i < |pre|
      ensures IsSpace(pre[i])
    {
      assert pre[i] == s[i];
    }
  }

  /** Slicing a suffix of `s` is slicing `s` itself, shifted. */
  lemma SliceOfSuffix(s: string, k: nat, n: nat)
    requires k + n <= |s|
    ensures s[k..][..n] == s[k..k + n]
    ensures s[k..][n..] == s[k + n..]
  {
  }

  /** `replace(/\s+/g, ' ')`: every maximal run of whitespace becomes one
      space. */
  function Collapse(s: string): string
    decreases |s|
  {
    if |s| == 0 then []
    else if IsSpace(s[0]) then " " + Collapse(TrimStart(s))
    else [s[0]] + Collapse(s[1..])
  }

  /** Putting a character in front keeps `SingleSpaces` when it is not a
      second whitespace character in a row. */
  lemma PrependSingleSpaces(x: char, c: string)
    requires IsSpace(x) ==> x == ' ' && (|c| > 0 ==> !IsSpace(c[0]))
    requires SingleSpaces(c)
    ensures SingleSpaces([x] + c)
  {
    var d := [x] + c;
    forall i | 0 < i < |d|
      ensures d[i] == c[i - 1]
    {
    }
  }

  /** What `Collapse` produces: whitespace only as single plain spaces, and
      whitespace at either end exactly where the input has it. */
  lemma {:induction false} CollapseShape(s: string)
    ensures |Collapse(s)| == 0 <==> |s| == 0
    ensures |Collapse(s)| <= |s|
    ensures |s| > 0 ==> (IsSpace(Collapse(s)[0]) <==> IsSpace(s[0]))
    ensures |s| > 0 ==> (IsSpace(Collapse(s)[|Collapse(s)| - 1]) <==> IsSpace(s[|s| - 1]))
    ensures SingleSpaces(Collapse(s))
    decreases |s|
  {
    if |s| == 0 {
    } else if IsSpace(s[0]) {
      var t := TrimStart(s);
      CollapseShape(t);
      var c := Collapse(t);
      assert Collapse(s) == [' '] + c;
      PrependSingleSpaces(' ', c);
      if |t| > 0 {
        LastOfSuffix(s, t);
      }
    } else {
      var t := s[1..];
      CollapseShape(t);
      var c := Collapse(t);
      assert Collapse(s) == [s[0]] + c;
      PrependSingleSpaces(s[0], c);
      if |t| > 0 {
        LastOfSuffix(s, t);
      }
    }
  }

  /** A non-empty suffix ends with the same character as the whole. */
  lemma LastOfSuffix(s: string, t: string)
    requires 0 < |t| <= |s| && t == s[|s| - |t|..]
    ensures t[|t| - 1] == s[|s| - 1]
  {
  }

  /** `sanitizeString`: trims, then collapses inner whitespace runs. */
  function Sanitize(s: string): (r: string)
    ensures Normalized(r)
    ensures |r| <= |s|
  {
    var t := Trim(s);
    CollapseTrimmed(t);
    Collapse(t)
  }

  /** Collapsing a string with no whitespace at either end gives the
      sanitized shape. */
  lemma CollapseTrimmed(t: string)
    requires |t| > 0 ==> !IsSpace(t[0]) && !IsSpace(t[|t| - 1])
    ensures Normalized(Collapse(t)) && |Collapse(t)| <= |t|
  {
    CollapseShape(t);
  }

  /** A string already in sanitized shape is left unchanged by `Collapse`. */
  lemma {:induction false} CollapseFixed(s: string)
    requires forall i :: 0 <= i < |s| && IsSpace(s[i]) ==> s[i] == ' '
    requires forall i :: 0 <= i < |s| - 1 ==> !IsSpace(s[i]) || !IsSpace(s[i + 1])
    ensures Collapse(s) == s
    decreases |s|
  {
    if |s| == 0 {
    } else if IsSpace(s[0]) {
      if |s| > 1 {
        assert !IsSpace(s[1]);
      }
      assert TrimStart(s) == s[1..];
      CollapseFixed(s[1..]);
      assert s == " " + s[1..];
    } else {
      CollapseFixed(s[1..]);
      assert s == [s[0]] + s[1..];
    }
  }

  /** `Sanitize` leaves sanitized strings alone. */
  lemma NormalizedIsFixpoint(s: string)
    requires Normalized(s)
    ensures Sanitize(s) == s
  {
    assert TrimStart(s) == s;
    assert TrimEnd(s) == s;
    CollapseFixed(s);
  }

  /** Sanitizing twice is the same as sanitizing once. */
  lemma SanitizeIdempotent(s: string)
    ensures Sanitize(Sanitize(s)) == Sanitize(s)
  {
    NormalizedIsFixpoint(Sanitize(s));
  }

  /** End of the run of non-whitespace characters starting at `i`. */
  function RunEnd(s: string, i: nat): (j: nat)
    requires i <= |s|
    ensures i <= j <= |s|
    ensures forall k :: i <= k < j ==> !IsSpace(s[k])
    ensures j < |s| ==> IsSpace(s[j])
    decreases |s| - i
  {
    if i == |s| || IsSpace(s[i]) then i else RunEnd(s, i + 1)
  }

  /** Length of the leading run of non-whitespace characters. */
  function SpanWord(s: string): (n: nat)
    ensures n <= |s|
    ensures forall i :: 0 <= i < n ==> !IsSpace(s[i])
    ensures n < |s| ==> IsSpace(s[n])
  {
    RunEnd(s, 0)
  }

  /** The words of `s`: its maximal runs of non-whitespace characters, in
      order. */
  function Words(s: string): seq<string>
    decreases |s|
  {
    var t := TrimStart(s);
    if |t| == 0 then []
    else
      var n := SpanWord(t);
      assert n > 0 by {
        assert !IsSpace(t[0]);
      }
      [t[..n]] + Words(t[n..])
  }

  /** The words separated by single spaces. */
  function Join(ws: seq<string>): string {
    if |ws| == 0 then ""
    else if |ws| == 1 then ws[0]
    else ws[0] + " " + Join(ws[1..])
  }

  /** A string that does not start with whitespace is its own `TrimStart`. */
  lemma TrimStartNoop(s: string)
    requires |s| == 0 || !IsSpace(s[0])
    ensures TrimStart(s) == s
  {
  }

  /** A string made only of whitespace trims to nothing. */
  lemma TrimStartAllSpaces(s: string)
    requires AllSpaces(s)
    ensures TrimStart(s) == []
  {
  }

  /** Leading whitespace of `a + b` is that of `a`, unless `a` is all
      whitespace. */
  lemma {:induction false} TrimStartAppend(a: string, b: string)
    ensures |TrimStart(a)| > 0 ==> TrimStart(a + b) == TrimStart(a) + b
    ensures |TrimStart(a)| == 0 ==> TrimStart(a + b) == TrimStart(b)
    decreases |a|
  {
    if |a| == 0 {
      assert a + b == b;
    } else if IsSpace(a[0]) {
      assert (a + b)[1..] == a[1..] + b;
      TrimStartAppend(a[1..], b);
    } else {
      assert (a + b)[0] == a[0];
    }
  }

  /** Trailing whitespace does not lengthen the leading word. */
  lemma {:induction false} SpanWordAppendSpaces(t: string, sp: string)
    requires AllSpaces(sp)
    ensures SpanWord(t + sp) == SpanWord(t)
    decreases |t|
  {
    if |t| == 0 {
      assert t + sp == sp;
    } else if !IsSpace(t[0]) {
      assert (t + sp)[1..] == t[1..] + sp;
      SpanWordAppendSpaces(t[1..], sp);
    }
  }

  /** Trailing whitespace adds no word. */
  lemma {:induction false} WordsAppendSpaces(a: string, sp: string)
    requires AllSpaces(sp)
    ensures Words(a + sp) == Words(a)
    decreases |a|
  {
    var t := TrimStart(a);
    TrimStartAppend(a, sp);
    if |t| == 0 {
      TrimStartAllSpaces(sp);
    } else {
      var u := t + sp;
      assert TrimStart(a + sp) == u;
      WordsOfTrimStart(a);
      WordsOfTrimStart(a + sp);
      var n := SpanWord(t);
      WordsUnfold(t);
      SpanWordAppendSpaces(t, sp);
      assert u[0] == t[0];
      WordsUnfold(u);
      SplitAppend(t, sp, n);
      WordsAppendSpaces(t[n..], sp);
    }
  }

  /** Cutting `a + b` inside `a`. */
  lemma SplitAppend(a: string, b: string, n: nat)
    requires n <= |a|
    ensures (a + b)[..n] == a[..n]
    ensures (a + b)[n..] == a[n..] + b
  {
  }

  /** Trimming does not change the words. */
  lemma WordsOfTrim(s: string)
    ensures Words(Trim(s)) == Words(s)
  {
    var u := TrimStart(s);
    WordsOfTrimStart(s);
    WordsOfTrimEnd(u);
  }

  /** Leading whitespace adds no word. */
  lemma WordsOfTrimStart(s: string)
    ensures Words(TrimStart(s)) == Words(s)
  {
    TrimStartNoop(TrimStart(s));
  }

  /** Trailing whitespace adds no word. */
  lemma WordsOfTrimEnd(u: string)
    ensures Words(TrimEnd(u)) == Words(u)
  {
    var v := TrimEnd(u);
    assert u == v + u[|v|..];
    WordsAppendSpaces(v, u[|v|..]);
  }

  /** A space-free prefix passes through `Collapse` unchanged. */
  lemma {:induction false} CollapseWordPrefix(w: string, rest: string)
    requires NoSpaces(w)
    ensures Collapse(w + rest) == w + Collapse(rest)
    decreases |w|
  {
    if |w| == 0 {
      assert w + rest == rest;
    } else {
      var x := w + rest;
      assert x[0] == w[0];
      SplitAppend(w, rest, 1);
      CollapseWordPrefix(w[1..], rest);
      assert Collapse(x) == [w[0]] + (w[1..] + Collapse(rest));
      ConcatAssoc([w[0]], w[1..], Collapse(rest));
      assert [w[0]] + w[1..] == w;
    }
  }

  /** Joining a word in front of a non-empty word list puts one space
      between them. */
  lemma JoinCons(w: string, ws: seq<string>)
    requires |ws| > 0
    ensures Join([w] + ws) == w + " " + Join(ws)
  {
    assert ([w] + ws)[1..] == ws;
  }

  /** Trimming leading whitespace keeps the last character, and keeps
      something when the last character is not whitespace. */
  lemma TrimStartKeepsLast(s: string)
    requires |s| > 0 && !IsSpace(s[|s| - 1])
    ensures |TrimStart(s)| > 0
    ensures TrimStart(s)[|TrimStart(s)| - 1] == s[|s| - 1]
  {
  }

  /** The first word of a string that starts with a word, and the rest. */
  lemma WordsUnfold(t: string)
    requires |t| > 0 && !IsSpace(t[0])
    ensures SpanWord(t) > 0
    ensures Words(t) == [t[..SpanWord(t)]] + Words(t[SpanWord(t)..])
  {
    TrimStartNoop(t);
  }

  lemma ConcatAssoc(a: string, b: string, c: string)
    ensures a + (b + c) == a + b + c
  {
  }

  /** A string that is a single word collapses to itself and joins to
      itself. */
  lemma CollapseIsJoinOneWord(t: string)
    requires |t| > 0 && !IsSpace(t[0]) && SpanWord(t) == |t|
    ensures Collapse(t) == Join(Words(t))
  {
    WordsUnfold(t);
    assert t[SpanWord(t)..] == [];
    assert Words([]) == [];
    assert t[..SpanWord(t)] == t;
    assert Words(t) == [t];
    assert t == t + [];
    CollapseWordPrefix(t, []);
  }

  lemma SplitAt(t: string, n: nat)
    requires n <= |t|
    ensures t == t[..n] + t[n..]
  {
  }

  /** A string with at least two words splits into its first word and a
      rest that starts with whitespace and ends like the string. */
  lemma SplitFirstWord(t: string)
    requires |t| > 0 && !IsSpace(t[0]) && SpanWord(t) < |t|
    ensures var n := SpanWord(t);
      && n > 0 && t == t[..n] + t[n..] && IsSpace(t[n..][0]) && NoSpaces(t[..n])
      && t[n..][|t[n..]| - 1] == t[|t| - 1]
      && Words(t) == [t[..n]] + Words(t[n..])
  {
    SplitAt(t, SpanWord(t));
    WordsUnfold(t);
  }

  /** After its leading whitespace, a rest that ends in a non-whitespace
      character still holds a word, and has the same words. */
  lemma SkipSpaces(rest: string)
    requires |rest| > 0 && !IsSpace(rest[|rest| - 1])
    ensures var r2 := TrimStart(rest);
      && |r2| > 0 && |r2| <= |rest| && !IsSpace(r2[0]) && !IsSpace(r2[|r2| - 1])
      && Words(rest) == Words(r2) && |Words(r2)| > 0
  {
    TrimStartKeepsLast(rest);
    WordsOfTrimStart(rest);
    WordsUnfold(TrimStart(rest));
  }

  /** The inductive step of `CollapseIsJoin`: a word, then whitespace, then
      the rest. */
  lemma CollapseIsJoinStep(w: string, rest: string, ws: seq<string>)
    requires |w| > 0 && NoSpaces(w)
    requires |rest| > 0 && IsSpace(rest[0])
    requires Collapse(TrimStart(rest)) == Join(ws) && |ws| > 0
    ensures Collapse(w + rest) == Join([w] + ws)
  {
    CollapseWordPrefix(w, rest);
    assert Collapse(rest) == " " + Collapse(TrimStart(rest));
    JoinCons(w, ws);
    ConcatAssoc(w, " ", Join(ws));
  }

  /** On a string without whitespace at either end, collapsing the runs is
      joining the words with single spaces. */
  lemma {:induction false} CollapseIsJoin(t: string)
    requires |t| == 0 || (!IsSpace(t[0]) && !IsSpace(t[|t| - 1]))
    ensures Collapse(t) == Join(Words(t))
    decreases |t|
  {
    if |t| > 0 {
      var n := SpanWord(t);
      if n == |t| {
        CollapseIsJoinOneWord(t);
      } else {
        var w, rest := t[..n], t[n..];
        var r2 := TrimStart(rest);
        SplitFirstWord(t);
        SkipSpaces(rest);
        CollapseIsJoin(r2);
        CollapseIsJoinStep(w, rest, Words(r2));
      }
    }
  }

  /** `sanitizeString` is the words of its input joined by single spaces:
      whitespace runs separate words, and nothing else changes. */
  lemma SanitizeIsJoinOfWords(s: string)
    ensures Sanitize(s) == Join(Words(s))
  {
    var u := TrimStart(s);
    var v := TrimEnd(u);
    if |v| > 0 {
      assert v[0] == u[0];
    }
    CollapseIsJoin(v);
    WordsOfTrim(s);
  }

  /** `toLowerCase` on one character, for the ASCII letters. */
  function LowerChar(c: char): (d: char)
    ensures 'A' <= c <= 'Z' ==> d as int == c as int + 32
    ensures !('A' <= c <= 'Z') ==> d == c
    ensures !('A' <= d <= 'Z')
  {
    if 'A' <= c <= 'Z' then (c as int + 32) as char else c
  }

  /** `toLowerCase`, character by character. */
  function ToLower(s: string): (r: string)
    ensures |r| == |s|
    ensures forall i :: 0 <= i < |s| ==> r[i] == LowerChar(s[i])
  {
    seq(|s|, i requires 0 <= i < |s| => LowerChar(s[i]))
  }

  /** Lower-casing twice is lower-casing once. */
  lemma ToLowerIdempotent(s: string)
    ensures ToLower(ToLower(s)) == ToLower(s)
  {
  }

  /** Lower-casing keeps a string in sanitized shape: it never turns a
      character into whitespace or whitespace into anything else. */
  lemma ToLowerKeepsNormalized(s: string)
    requires Normalized(s)
    ensures Normalized(ToLower(s))
  {
    var r := ToLower(s);
    assert forall i :: 0 <= i < |s| ==> (IsSpace(r[i]) <==> IsSpace(s[i]));
  }
}
