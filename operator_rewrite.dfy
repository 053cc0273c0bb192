/**
 * The comparison-operator rewrite of the product list endpoint: every
 * whole-word `gt`, `gte`, `lt`, `lte` or `in` in the JSON text of the filter
 * parameters gets a `$` in front of it, keys and values alike.
 */
module OperatorRewrite {
  import opened Wrappers
  import opened JsonText

  /** A character matched by `\w` in a regular expression without the `u` flag. */
  predicate IsWordChar(c: char) {
    'a' <= c <= 'z' || 'A' <= c <= 'Z' || '0' <= c <= '9' || c == '_'
  }

  /** `gt`, `gte`, `lt`, `lte` or `in`, spelled out character by character. */
  predicate IsOperatorToken(w: string) {
    || (|w| == 2 && (w[0] == 'g' || w[0] == 'l') && w[1] == 't')
    || (|w| == 3 && (w[0] == 'g' || w[0] == 'l') && w[1] == 't' && w[2] == 'e')
    || (|w| == 2 && w[0] == 'i' && w[1] == 'n')
  }

  lemma OperatorTokens(w: string)
    ensures IsOperatorToken(w) <==> w in ["gt", "gte", "lt", "lte", "in"]
  {
    if |w| == 2 {
      assert w == [w[0], w[1]];
    } else if |w| == 3 {
      assert w == [w[0], w[1], w[2]];
    }
  }

  predicate AllWordChars(w: string) {
    forall i :: 0 <= i < |w| ==> IsWordChar(w[i])
  }

  predicate NoWordChars(w: string) {
    forall i :: 0 <= i < |w| ==> !IsWordChar(w[i])
  }

  /** A finished whole word, with `$` in front when it is an operator. */
  function Flush(w: string): string {
    (if IsOperatorToken(w) then "$" else "") + w
  }

  /**
   * Scans `t` left to right; `word` holds the word characters read since the
   * last non-word character, which are written out when the word ends.
   */
  function Scan(t: string, word: string): string
    decreases |t|
  {
    if t == [] then Flush(word)
    else if IsWordChar(t[0]) then Scan(t[1..], word + [t[0]])
    else Flush(word) + [t[0]] + Scan(t[1..], [])
  }

  /** `text.replace(/\b(gt|gte|lt|lte|in)\b/g, m => "$" + m)`. */
  function RewriteText(t: string): string {
    Scan(t, [])
  }

  // ---------------------------------------------------------------------------
  // Reference: the regular expression, position by position

  /** The length of the run of word characters at the front of `t`. */
  function WordRunLength(t: string): (n: nat)
    ensures n <= |t|
  {
    if t == [] || !IsWordChar(t[0]) then 0 else 1 + WordRunLength(t[1..])
  }

  /** The run at the front of `t` is exactly n characters long. */
  lemma {:induction false} RunLengthIs(t: string, n: nat)
    requires n <= |t| && (forall i :: 0 <= i < n ==> IsWordChar(t[i]))
    requires n == |t| || !IsWordChar(t[n])
    ensures WordRunLength(t) == n
  {
    if n > 0 {
      RunLengthIs(t[1..], n - 1);
    }
  }

  /** `\b` followed by a word character at position i. */
  predicate StartsWord(t: string, i: nat) {
    i < |t| && IsWordChar(t[i]) && (i == 0 || !IsWordChar(t[i - 1]))
  }

  /** `\b(gt|gte|lt|lte|in)\b` matches at position i. */
  predicate MatchAt(t: string, i: nat)
    requires i <= |t|
  {
    StartsWord(t, i) && IsOperatorToken(t[i..i + WordRunLength(t[i..])])
  }

  /** The text from position i on, with `$` inserted before every match. */
  function InsertDollars(t: string, i: nat): string
    requires i <= |t|
    decreases |t| - i
  {
    if i == |t| then []
    else (if MatchAt(t, i) then "$" else "") + [t[i]] + InsertDollars(t, i + 1)
  }

  /** Inside a word nothing is inserted. */
  lemma {:induction false} InsideWord(t: string, j: nat, k: nat, e: nat)
    requires j < k <= e <= |t|
    requires forall m :: j <= m < e ==> IsWordChar(t[m])
    ensures InsertDollars(t, k) == t[k..e] + InsertDollars(t, e)
    decreases e - k
  {
    if k < e {
      assert !StartsWord(t, k);
      assert InsertDollars(t, k) == [t[k]] + InsertDollars(t, k + 1);
      InsideWord(t, j, k + 1, e);
      Assoc([t[k]], t[k + 1..e], InsertDollars(t, e));
      assert t[k..e] == [t[k]] + t[k + 1..e];
    } else {
      assert t[k..e] == [];
    }
  }

  /** At the start of a whole word t[j..e] the expression matches exactly when the word is an operator. */
  lemma MatchAtWord(t: string, j: nat, e: nat)
    requires j < e <= |t|
    requires forall m :: j <= m < e ==> IsWordChar(t[m])
    requires j == 0 || !IsWordChar(t[j - 1])
    requires e == |t| || !IsWordChar(t[e])
    ensures MatchAt(t, j) == IsOperatorToken(t[j..e])
  {
    var u := t[j..];
    assert forall i :: 0 <= i < e - j ==> u[i] == t[j + i];
    RunLengthIs(u, e - j);
  }

  /** A whole word t[j..e] gets `$` exactly when the expression matches at j. */
  lemma WholeWord(t: string, j: nat, e: nat)
    requires j < e <= |t|
    requires forall m :: j <= m < e ==> IsWordChar(t[m])
    requires j == 0 || !IsWordChar(t[j - 1])
    requires e == |t| || !IsWordChar(t[e])
    ensures InsertDollars(t, j) == Flush(t[j..e]) + InsertDollars(t, e)
  {
    MatchAtWord(t, j, e);
    var p := if IsOperatorToken(t[j..e]) then "$" else "";
    assert InsertDollars(t, j) == p + [t[j]] + InsertDollars(t, j + 1);
    if j + 1 < e {
      InsideWord(t, j, j + 1, e);
    } else {
      assert t[j + 1..e] == [];
    }
    assert t[j..e] == [t[j]] + t[j + 1..e];
    Assoc4(p, [t[j]], t[j + 1..e], InsertDollars(t, e));
  }

  lemma ScanNonWord(u: string, w: string)
    requires u != [] && !IsWordChar(u[0])
    ensures Scan(u, w) == Flush(w) + [u[0]] + Scan(u[1..], [])
  {
  }

  lemma InsertAtNonWord(t: string, i: nat)
    requires i < |t| && !IsWordChar(t[i])
    ensures InsertDollars(t, i) == [t[i]] + InsertDollars(t, i + 1)
  {
    assert !StartsWord(t, i);
  }

  /** The possibly empty word t[j..i] before a word boundary at i. */
  lemma WordBefore(t: string, j: nat, i: nat)
    requires j <= i < |t| && !IsWordChar(t[i])
    requires forall m :: j <= m < i ==> IsWordChar(t[m])
    requires j == 0 || !IsWordChar(t[j - 1])
    ensures InsertDollars(t, j) == Flush(t[j..i]) + InsertDollars(t, i)
  {
    if j < i {
      WholeWord(t, j, i);
    } else {
      assert Flush(t[j..i]) == [];
    }
  }

  lemma Assoc<T>(a: seq<T>, b: seq<T>, c: seq<T>)
    ensures a + b + c == a + (b + c)
  {
  }

  /** A non-word character at i ends the word t[j..i] being scanned. */
  lemma ScanBoundary(t: string, j: nat, i: nat)
    requires j <= i < |t| && !IsWordChar(t[i])
    requires forall m :: j <= m < i ==> IsWordChar(t[m])
    requires j == 0 || !IsWordChar(t[j - 1])
    requires Scan(t[i + 1..], []) == InsertDollars(t, i + 1)
    ensures Scan(t[i..], t[j..i]) == InsertDollars(t, j)
  {
    assert t[i..][0] == t[i] && t[i..][1..] == t[i + 1..];
    ScanNonWord(t[i..], t[j..i]);
    InsertAtNonWord(t, i);
    WordBefore(t, j, i);
    Assoc(Flush(t[j..i]), [t[i]], InsertDollars(t, i + 1));
  }

  lemma {:induction false} ScanFrom(t: string, j: nat, i: nat)
    requires j <= i <= |t|
    requires forall m :: j <= m < i ==> IsWordChar(t[m])
    requires j == 0 || !IsWordChar(t[j - 1])
    ensures Scan(t[i..], t[j..i]) == InsertDollars(t, j)
    decreases |t| - i
  {
    if i == |t| {
      if j < i {
        WholeWord(t, j, i);
      }
    } else if IsWordChar(t[i]) {
      assert t[i..][1..] == t[i + 1..];
      assert t[j..i] + [t[i]] == t[j..i + 1];
      ScanFrom(t, j, i + 1);
    } else {
      ScanFrom(t, i + 1, i + 1);
      assert t[i + 1..i + 1] == [];
      ScanBoundary(t, j, i);
    }
  }

  /** The scan inserts `$` exactly before the positions where the regular expression matches. */
  lemma RewriteIsRegexReplace(t: string)
    ensures RewriteText(t) == InsertDollars(t, 0)
  {
    ScanFrom(t, 0, 0);
    assert t[0..] == t && t[0..0] == [];
  }

  lemma {:induction false} InsertNothing(t: string, i: nat)
    requires i <= |t|
    requires forall k :: i <= k < |t| ==> !MatchAt(t, k)
    ensures InsertDollars(t, i) == t[i..]
    decreases |t| - i
  {
    if i < |t| {
      InsertNothing(t, i + 1);
      assert t[i..] == [t[i]] + t[i + 1..];
    }
  }

  /** Text in which no operator occurs as a whole word comes back unchanged. */
  lemma NoMatchUnchanged(t: string)
    requires forall k :: 0 <= k < |t| ==> !MatchAt(t, k)
    ensures RewriteText(t) == t
  {
    RewriteIsRegexReplace(t);
    InsertNothing(t, 0);
    assert t[0..] == t;
  }

  // ---------------------------------------------------------------------------
  // Splitting the text

  lemma {:induction false} ScanWordPrefix(u: string, x: string, word: string)
    requires AllWordChars(u)
    ensures Scan(u + x, word) == Scan(x, word + u)
  {
    if u == [] {
      assert u + x == x && word + u == word;
    } else {
      assert (u + x)[0] == u[0] && (u + x)[1..] == u[1..] + x;
      ScanWordPrefix(u[1..], x, word + [u[0]]);
      assert word + [u[0]] + u[1..] == word + u;
    }
  }

  /** A scan can be split where a non-word character starts. */
  lemma {:induction false} ScanConcat(a: string, b: string, word: string)
    requires b == [] || !IsWordChar(b[0])
    ensures Scan(a + b, word) == Scan(a, word) + Scan(b, [])
  {
    if a == [] {
      assert a + b == b;
      if b != [] {
        assert Flush([]) == [];
      }
    } else {
      assert (a + b)[0] == a[0] && (a + b)[1..] == a[1..] + b;
      if IsWordChar(a[0]) {
        ScanConcat(a[1..], b, word + [a[0]]);
      } else {
        ScanConcat(a[1..], b, []);
      }
    }
  }

  lemma RewriteAround(a: string, c: char, b: string)
    requires !IsWordChar(c)
    ensures RewriteText(a + [c] + b) == RewriteText(a) + [c] + RewriteText(b)
  {
    assert a + [c] + b == a + ([c] + b);
    ScanConcat(a, [c] + b, []);
    assert ([c] + b)[0] == c && ([c] + b)[1..] == b;
    assert Flush([]) == [];
  }

  lemma {:induction false} ScanNonWordPrefix(e: string, x: string, word: string)
    requires e != [] && NoWordChars(e)
    ensures Scan(e + x, word) == Flush(word) + e + Scan(x, [])
  {
    assert (e + x)[0] == e[0] && (e + x)[1..] == e[1..] + x;
    if |e| > 1 {
      ScanNonWordPrefix(e[1..], x, []);
      assert Flush([]) == [];
      assert [e[0]] + e[1..] == e;
    } else {
      assert e[1..] + x == x && [e[0]] == e;
    }
  }

  // ---------------------------------------------------------------------------
  // The same rewrite seen on the decoded strings

  /** The last part of a control character's escape (`n` of `\n`, `u001f` of `\u001f`) is glued to the next word. */
  function FlushRaw(word: string, glued: bool): string {
    if glued then word else Flush(word)
  }

  /**
   * What the text rewrite does to one string once it is read back. `glued`
   * says that the word being read follows a control character, whose escape
   * ends in a letter or hex digit that joins this word, so it is never a whole
   * operator word.
   */
  function RawScan(s: string, word: string, glued: bool): string
    decreases |s|
  {
    if s == [] then FlushRaw(word, glued)
    else if IsWordChar(s[0]) then RawScan(s[1..], word + [s[0]], glued)
    else FlushRaw(word, glued) + [s[0]] + RawScan(s[1..], [], IsControl(s[0]))
  }

  function RewriteRaw(s: string): string {
    RawScan(s, [], false)
  }

  lemma {:induction false} EscapeWord(w: string)
    requires AllWordChars(w)
    ensures Escape(w) == w
  {
    if w != [] {
      EscapeWord(w[1..]);
      assert [w[0]] + w[1..] == w;
    }
  }

  /** The escape of a control character: a backslash, then word characters not starting a token. */
  lemma EscapeOfControl(c: char)
    requires IsControl(c)
    ensures |EscapeChar(c)| >= 2 && EscapeChar(c)[0] == '\\'
    ensures AllWordChars(EscapeChar(c)[1..]) && EscapeChar(c)[1] in "bfnrtu"
  {
    if !(c as int == 0x08 || c as int == 0x0C || c == '\n' || c == '\r' || c == '\t') {
      var h := [HexDigit(c as int / 16), HexDigit(c as int % 16)];
      assert EscapeChar(c)[1..] == "u00" + h;
    }
  }

  lemma FlushGlued(l: string, w: string, glued: bool)
    requires AllWordChars(w)
    requires glued <==> l != []
    requires l != [] ==> l[0] in "bfnrtu"
    ensures Flush(l + w) == l + Escape(FlushRaw(w, glued))
  {
    EscapeWord(w);
    if glued {
      assert (l + w)[0] == l[0];
      assert !IsOperatorToken(l + w);
      assert Flush(l + w) == "" + (l + w);
      assert "" + (l + w) == l + w;
    } else {
      assert l + w == w;
      if IsOperatorToken(w) {
        assert Escape("$") == "$" by {
          assert Escape("$") == EscapeChar('$') + Escape([]);
        }
        EscapeConcat("$", w);
      } else {
        assert Flush(w) == "" + w;
        assert "" + w == w;
      }
    }
  }

  predicate GluedPrefix(l: string, w: string, glued: bool) {
    && AllWordChars(l) && AllWordChars(w)
    && (glued <==> l != [])
    && (l != [] ==> l[0] in "bfnrtu")
  }

  lemma EscapeCons(c: char, s: string)
    ensures Escape([c] + s) == EscapeChar(c) + Escape(s)
  {
    assert ([c] + s)[0] == c && ([c] + s)[1..] == s;
  }

  lemma RawScanCons(c: char, s: string, w: string, glued: bool)
    requires !IsWordChar(c)
    ensures RawScan([c] + s, w, glued) == FlushRaw(w, glued) + [c] + RawScan(s, [], IsControl(c))
  {
    assert ([c] + s)[0] == c && ([c] + s)[1..] == s;
  }

  lemma EscapeAround(a: string, c: char, b: string)
    ensures Escape(a + [c] + b) == Escape(a) + EscapeChar(c) + Escape(b)
  {
    EscapeConcat(a + [c], b);
    EscapeConcat(a, [c]);
    EscapeCons(c, []);
    assert [c] + [] == [c];
  }

  /** The text step for a control character, on abstract strings. */
  lemma ControlText(e: string, rest: string, l: string, w: string, f: string, r: string)
    requires |e| >= 2 && e[0] == '\\' && AllWordChars(e[1..])
    requires Scan(rest, e[1..]) == e[1..] + r
    requires Flush(l + w) == l + f
    ensures Scan(e + rest, l + w) == l + f + e + r
  {
    var e' := e[1..];
    var x := e + rest;
    assert x[0] == '\\' && x[1..] == e' + rest;
    var y := x[1..];
    assert Scan(x, l + w) == Flush(l + w) + ['\\'] + Scan(y, []);
    ScanWordPrefix(e', rest, []);
    assert [] + e' == e';
    Assoc4(l + f, ['\\'], e', r);
    assert ['\\'] + e' == e;
  }

  lemma Assoc4<T>(a: seq<T>, b: seq<T>, c: seq<T>, d: seq<T>)
    ensures a + b + (c + d) == a + (b + c) + d
  {
  }

  lemma WordStep(c: char, s': string, l: string, w: string, glued: bool)
    requires IsWordChar(c) && GluedPrefix(l, w, glued)
    requires Scan(Escape(s'), l + (w + [c])) == l + Escape(RawScan(s', w + [c], glued))
    ensures Scan(Escape([c] + s'), l + w) == l + Escape(RawScan([c] + s', w, glued))
  {
    var rest := Escape(s');
    EscapeCons(c, s');
    assert EscapeChar(c) == [c];
    assert ([c] + rest)[0] == c && ([c] + rest)[1..] == rest;
    assert ([c] + s')[0] == c && ([c] + s')[1..] == s';
    assert l + w + [c] == l + (w + [c]);
  }

  lemma Assoc3(a: string, b: string, c: string, d: string)
    ensures a + (b + c + d) == a + b + c + d
  {
  }

  lemma ControlStep(c: char, s': string, l: string, w: string, glued: bool)
    requires IsControl(c) && GluedPrefix(l, w, glued)
    requires Scan(Escape(s'), EscapeChar(c)[1..]) == EscapeChar(c)[1..] + Escape(RawScan(s', [], true))
    ensures Scan(Escape([c] + s'), l + w) == l + Escape(RawScan([c] + s', w, glued))
  {
    var e, fr, raw := EscapeChar(c), FlushRaw(w, glued), RawScan(s', [], true);
    EscapeOfControl(c);
    EscapeCons(c, s');
    FlushGlued(l, w, glued);
    ControlText(e, Escape(s'), l, w, Escape(fr), Escape(raw));
    RawScanCons(c, s', w, glued);
    EscapeAround(fr, c, raw);
    Assoc3(l, Escape(fr), e, Escape(raw));
  }

  /** Any other non-word character escapes to non-word characters only. */
  lemma EscapeOfOther(c: char)
    requires !IsWordChar(c) && !IsControl(c)
    ensures EscapeChar(c) != [] && NoWordChars(EscapeChar(c))
  {
    if c == '"' {
      assert EscapeChar(c) == ['\\', '"'];
    } else if c == '\\' {
      assert EscapeChar(c) == ['\\', '\\'];
    } else {
      assert EscapeChar(c) == [c];
    }
  }

  lemma OtherStep(c: char, s': string, l: string, w: string, glued: bool)
    requires !IsWordChar(c) && !IsControl(c) && GluedPrefix(l, w, glued)
    requires Scan(Escape(s'), []) == Escape(RawScan(s', [], false))
    ensures Scan(Escape([c] + s'), l + w) == l + Escape(RawScan([c] + s', w, glued))
  {
    var e, fr, raw := EscapeChar(c), FlushRaw(w, glued), RawScan(s', [], false);
    EscapeOfOther(c);
    EscapeCons(c, s');
    FlushGlued(l, w, glued);
    ScanNonWordPrefix(e, Escape(s'), l + w);
    RawScanCons(c, s', w, glued);
    EscapeAround(fr, c, raw);
    Assoc3(l, Escape(fr), e, Escape(raw));
  }

  lemma {:induction false} ScanEscaped(s: string, l: string, w: string, glued: bool)
    requires GluedPrefix(l, w, glued)
    ensures Scan(Escape(s), l + w) == l + Escape(RawScan(s, w, glued))
  {
    if s == [] {
      FlushGlued(l, w, glued);
    } else {
      var c, s' := s[0], s[1..];
      assert s == [c] + s';
      if IsWordChar(c) {
        ScanEscaped(s', l, w + [c], glued);
        WordStep(c, s', l, w, glued);
      } else if IsControl(c) {
        EscapeOfControl(c);
        ScanEscaped(s', EscapeChar(c)[1..], [], true);
        assert EscapeChar(c)[1..] + [] == EscapeChar(c)[1..];
        ControlStep(c, s', l, w, glued);
      } else {
        ScanEscaped(s', [], [], false);
        assert "" + "" == "";
        OtherStep(c, s', l, w, glued);
      }
    }
  }

  /** Rewriting the escaped text equals escaping the rewritten string. */
  lemma RewriteEscaped(s: string)
    ensures RewriteText(Escape(s)) == Escape(RewriteRaw(s))
  {
    ScanEscaped(s, [], [], false);
    assert "" + "" == "";
  }

  /** Either `word` itself or `$` followed by it. */
  lemma FlushRawShape(w: string, glued: bool)
    ensures FlushRaw(w, glued) == w || (FlushRaw(w, glued) != [] && FlushRaw(w, glued)[0] == '$')
  {
    if !glued && IsOperatorToken(w) {
      assert FlushRaw(w, glued) == "$" + w;
    }
  }

  lemma DollarIn(a: string, b: string)
    requires '$' in a || '$' in b
    ensures '$' in a + b
  {
    if '$' in a {
      var i :| 0 <= i < |a| && a[i] == '$';
      assert (a + b)[i] == '$';
    } else {
      var j :| 0 <= j < |b| && b[j] == '$';
      assert (a + b)[|a| + j] == '$';
    }
  }

  lemma NonWordKeeps(f: string, w: string, c: char, rest: string, tail: string)
    requires f == w || (f != [] && f[0] == '$')
    requires rest == tail || '$' in rest
    ensures f + [c] + rest == w + ([c] + tail) || '$' in f + [c] + rest
  {
    if f != [] && f[0] == '$' {
      DollarIn(f, [c]);
      DollarIn(f + [c], rest);
    } else if '$' in rest {
      DollarIn(f + [c], rest);
    } else {
      Assoc(w, [c], tail);
    }
  }

  /** The rewrite leaves a string as it is or puts a `$` in it. */
  lemma {:induction false} RawScanUnchangedOrDollar(s: string, w: string, glued: bool)
    ensures RawScan(s, w, glued) == w + s || '$' in RawScan(s, w, glued)
    decreases |s|
  {
    if s == [] {
      assert w + s == w;
      FlushRawShape(w, glued);
      if FlushRaw(w, glued) != w {
        assert FlushRaw(w, glued)[0] == '$';
      }
    } else if IsWordChar(s[0]) {
      RawScanUnchangedOrDollar(s[1..], w + [s[0]], glued);
      Assoc(w, [s[0]], s[1..]);
      assert [s[0]] + s[1..] == s;
    } else {
      RawScanUnchangedOrDollar(s[1..], [], IsControl(s[0]));
      assert [] + s[1..] == s[1..];
      FlushRawShape(w, glued);
      NonWordKeeps(FlushRaw(w, glued), w, s[0], RawScan(s[1..], [], IsControl(s[0])), s[1..]);
      assert [s[0]] + s[1..] == s;
    }
  }

  /** The text with every `$` taken out. */
  function RemoveDollars(s: string): string {
    if s == [] then [] else (if s[0] == '$' then [] else [s[0]]) + RemoveDollars(s[1..])
  }

  lemma {:induction false} RemoveDollarsConcat(a: string, b: string)
    ensures RemoveDollars(a + b) == RemoveDollars(a) + RemoveDollars(b)
  {
    if a == [] {
      assert a + b == b;
    } else {
      assert (a + b)[0] == a[0] && (a + b)[1..] == a[1..] + b;
      RemoveDollarsConcat(a[1..], b);
    }
  }

  lemma FlushRemoveDollars(w: string, glued: bool)
    ensures RemoveDollars(FlushRaw(w, glued)) == RemoveDollars(w)
    ensures RemoveDollars(Flush(w)) == RemoveDollars(w)
  {
    RemoveDollarsConcat(if IsOperatorToken(w) then "$" else "", w);
  }

  /** A scan step on a non-word character `c`: the word, `c`, then the rest. */
  lemma RemoveDollarsStep(f: string, w: string, c: char, out: string, rest: string)
    requires RemoveDollars(f) == RemoveDollars(w) && RemoveDollars(out) == RemoveDollars(rest)
    ensures RemoveDollars(f + [c] + out) == RemoveDollars(w + ([c] + rest))
  {
    var x, y, z := RemoveDollars(w), RemoveDollars([c]), RemoveDollars(rest);
    RemoveDollarsConcat(f + [c], out);
    RemoveDollarsConcat(f, [c]);
    assert RemoveDollars(f + [c] + out) == x + y + z;
    RemoveDollarsConcat(w, [c] + rest);
    RemoveDollarsConcat([c], rest);
    assert RemoveDollars(w + ([c] + rest)) == x + (y + z);
    Assoc(x, y, z);
  }

  /** The text rewrite changes nothing but `$` characters: without them, output and input agree. */
  lemma {:induction false} ScanRemoveDollars(t: string, word: string)
    ensures RemoveDollars(Scan(t, word)) == RemoveDollars(word + t)
    decreases |t|
  {
    if t == [] {
      assert word + t == word;
      FlushRemoveDollars(word, false);
    } else if IsWordChar(t[0]) {
      ScanRemoveDollars(t[1..], word + [t[0]]);
      Assoc(word, [t[0]], t[1..]);
      assert [t[0]] + t[1..] == t;
    } else {
      ScanRemoveDollars(t[1..], []);
      assert [] + t[1..] == t[1..];
      FlushRemoveDollars(word, false);
      RemoveDollarsStep(Flush(word), word, t[0], Scan(t[1..], []), t[1..]);
      assert [t[0]] + t[1..] == t;
    }
  }

  /** `text.replace` with this pattern only inserts `$`: removing every `$` from input and output gives the same text. */
  lemma RewriteOnlyInsertsDollars(t: string)
    ensures RemoveDollars(RewriteText(t)) == RemoveDollars(t)
  {
    ScanRemoveDollars(t, []);
    assert [] + t == t;
  }

  /** The same on a decoded string: the rewrite changes it only by inserting `$`. */
  lemma {:induction false} RawScanRemoveDollars(s: string, w: string, glued: bool)
    ensures RemoveDollars(RawScan(s, w, glued)) == RemoveDollars(w + s)
    decreases |s|
  {
    if s == [] {
      assert w + s == w;
      FlushRemoveDollars(w, glued);
    } else if IsWordChar(s[0]) {
      RawScanRemoveDollars(s[1..], w + [s[0]], glued);
      Assoc(w, [s[0]], s[1..]);
      assert [s[0]] + s[1..] == s;
    } else {
      RawScanRemoveDollars(s[1..], [], IsControl(s[0]));
      assert [] + s[1..] == s[1..];
      FlushRemoveDollars(w, glued);
      RemoveDollarsStep(FlushRaw(w, glued), w, s[0], RawScan(s[1..], [], IsControl(s[0])), s[1..]);
      assert [s[0]] + s[1..] == s;
    }
  }

  lemma RewriteRawOnlyInsertsDollars(s: string)
    ensures RemoveDollars(RewriteRaw(s)) == RemoveDollars(s)
  {
    RawScanRemoveDollars(s, [], false);
    assert [] + s == s;
  }

  lemma DollarFreeUnchanged(s: string)
    requires '$' !in RewriteRaw(s)
    ensures RewriteRaw(s) == s
  {
    RawScanUnchangedOrDollar(s, [], false);
    assert [] + s == s;
  }

  // ---------------------------------------------------------------------------
  // The rewrite seen on the query value

  /** What the rewrite of the JSON text does to a value: every key and every string goes through RewriteRaw. */
  function RewriteValue(v: QValue): QValue
    decreases v, 1
  {
    match v
    case Str(s) => Str(RewriteRaw(s))
    case Arr(items) => Arr(RewriteItems(items))
    case Obj(fields) => Obj(RewriteFields(fields))
  }

  function RewriteItems(items: seq<QValue>): (r: seq<QValue>)
    ensures |r| == |items|
    decreases items, 0
  {
    if items == [] then [] else [RewriteValue(items[0])] + RewriteItems(items[1..])
  }

  function RewriteField(f: Field): Field
    decreases f, 0
  {
    Field(RewriteRaw(f.key), RewriteValue(f.val))
  }

  function RewriteFields(fields: seq<Field>): (r: seq<Field>)
    ensures |r| == |fields|
    ensures forall i :: 0 <= i < |r| ==> r[i] == RewriteField(fields[i])
    decreases fields, 0
  {
    if fields == [] then [] else [RewriteField(fields[0])] + RewriteFields(fields[1..])
  }

  lemma RewriteEmpty()
    ensures RewriteText([]) == []
  {
    assert Flush([]) == [];
  }

  /** Text between two non-word delimiters is rewritten on its own. */
  lemma RewriteBetween(o: char, x: string, c: char)
    requires !IsWordChar(o) && !IsWordChar(c)
    ensures RewriteText([o] + x + [c]) == [o] + RewriteText(x) + [c]
  {
    RewriteAround([], o, x + [c]);
    assert [] + [o] + (x + [c]) == [o] + x + [c];
    RewriteAround(x, c, []);
    assert x + [c] + [] == x + [c];
    RewriteEmpty();
    Assoc([o], RewriteText(x), [c]);
  }

  lemma RewriteQuote(s: string)
    ensures RewriteText(Quote(s)) == Quote(RewriteRaw(s))
  {
    RewriteBetween('"', Escape(s), '"');
    RewriteEscaped(s);
  }

  /** Rewriting the JSON text of a value is the JSON text of the rewritten value. */
  lemma {:induction false} RewriteSerialized(v: QValue)
    ensures RewriteText(Serialize(v)) == Serialize(RewriteValue(v))
    decreases v, 1
  {
    match v
    case Str(s) =>
      RewriteQuote(s);
    case Arr(items) =>
      RewriteBetween('[', SerializeItems(items), ']');
      RewriteSerializedItems(items);
    case Obj(fields) =>
      RewriteBetween('{', SerializeFields(fields), '}');
      RewriteSerializedFields(fields);
  }

  lemma {:induction false} RewriteSerializedItems(items: seq<QValue>)
    ensures RewriteText(SerializeItems(items)) == SerializeItems(RewriteItems(items))
    decreases items, 0
  {
    if items == [] {
      RewriteEmpty();
    } else if |items| == 1 {
      RewriteSerialized(items[0]);
    } else {
      RewriteAround(Serialize(items[0]), ',', SerializeItems(items[1..]));
      RewriteSerialized(items[0]);
      RewriteSerializedItems(items[1..]);
      var r := RewriteItems(items);
      assert r[0] == RewriteValue(items[0]) && r[1..] == RewriteItems(items[1..]);
    }
  }

  lemma {:induction false} RewriteSerializedField(f: Field)
    ensures RewriteText(SerializeField(f)) == SerializeField(RewriteField(f))
    decreases f, 0
  {
    RewriteAround(Quote(f.key), ':', Serialize(f.val));
    RewriteQuote(f.key);
    RewriteSerialized(f.val);
  }

  lemma {:induction false} RewriteSerializedFields(fields: seq<Field>)
    ensures RewriteText(SerializeFields(fields)) == SerializeFields(RewriteFields(fields))
    decreases fields, 0
  {
    if fields == [] {
      RewriteEmpty();
    } else if |fields| == 1 {
      RewriteSerializedField(fields[0]);
    } else {
      RewriteAround(SerializeField(fields[0]), ',', SerializeFields(fields[1..]));
      RewriteSerializedField(fields[0]);
      RewriteSerializedFields(fields[1..]);
      var r := RewriteFields(fields);
      assert r[0] == RewriteField(fields[0]) && r[1..] == RewriteFields(fields[1..]);
    }
  }

  /** `JSON.parse(JSON.stringify(v).replace(...))` always succeeds and yields the rewritten value. */
  lemma ParseRewritten(v: QValue)
    ensures Parse(RewriteText(Serialize(v))) == Some(RewriteValue(v))
  {
    RewriteSerialized(v);
    ParseSerialize(RewriteValue(v));
  }

  // ---------------------------------------------------------------------------
  // Instances

  lemma {:induction false} RawWordPrefix(u: string, x: string, word: string, glued: bool)
    requires AllWordChars(u)
    ensures RawScan(u + x, word, glued) == RawScan(x, word + u, glued)
  {
    if u == [] {
      assert u + x == x && word + u == word;
    } else {
      assert (u + x)[0] == u[0] && (u + x)[1..] == u[1..] + x;
      RawWordPrefix(u[1..], x, word + [u[0]], glued);
      assert word + [u[0]] + u[1..] == word + u;
    }
  }

  /** A string that is one word is rewritten exactly when it is an operator. */
  lemma RawWord(w: string)
    requires AllWordChars(w)
    ensures RewriteRaw(w) == Flush(w)
  {
    RawWordPrefix(w, [], [], false);
    assert w + [] == w && [] + w == w;
  }

  /** A bracket filter `field[op]=n` on plain words: only the operator key gains its `$`. */
  lemma BracketOperator(field: string, op: string, n: string)
    requires AllWordChars(field) && AllWordChars(op) && AllWordChars(n)
    requires !IsOperatorToken(field) && IsOperatorToken(op) && !IsOperatorToken(n)
    ensures RewriteValue(Obj([Field(field, Obj([Field(op, Str(n))]))]))
         == Obj([Field(field, Obj([Field("$" + op, Str(n))]))])
  {
    RawWord(field);
    RawWord(op);
    RawWord(n);
    assert "" + field == field && "" + n == n;
    assert RewriteRaw(op) == "$" + op && RewriteRaw(n) == n && RewriteRaw(field) == field;
    assert RewriteValue(Str(n)) == Str(n);
    var inner := [Field(op, Str(n))];
    assert RewriteFields(inner) == [Field("$" + op, Str(n))] by {
      assert inner[0] == Field(op, Str(n));
      assert RewriteField(Field(op, Str(n))) == Field(RewriteRaw(op), RewriteValue(Str(n)));
      assert RewriteFields(inner[1..]) == [];
    }
    var outer := [Field(field, Obj(inner))];
    assert RewriteFields(outer) == [Field(field, Obj([Field("$" + op, Str(n))]))] by {
      assert outer[0] == Field(field, Obj(inner));
      assert RewriteValue(Obj(inner)) == Obj(RewriteFields(inner));
      assert RewriteField(Field(field, Obj(inner))) == Field(RewriteRaw(field), RewriteValue(Obj(inner)));
      assert RewriteFields(outer[1..]) == [];
    }
  }

  /** `price[gt]=10` reaches the store as `{"price": {"$gt": "10"}}`. */
  lemma BracketOperatorRewritten()
    ensures RewriteValue(Obj([Field("price", Obj([Field("gt", Str("10"))]))]))
         == Obj([Field("price", Obj([Field("$gt", Str("10"))]))])
  {
    BracketOperator("price", "gt", "10");
    assert "$" + "gt" == "$gt";
  }

  /** An operator inside a longer word is left alone. */
  lemma EmbeddedTokenUntouched()
    ensures RewriteRaw("ingredient") == "ingredient"
  {
    var w := "ingredient";
    RawWord(w);
    assert |w| == 10;
    assert "" + w == w;
  }

  /** An operator word followed by a hyphen and another word gets its `$`, as a whole word does. */
  lemma OperatorBeforeHyphen(a: string, b: string)
    requires AllWordChars(a) && AllWordChars(b) && IsOperatorToken(a) && !IsOperatorToken(b)
    ensures RewriteRaw(a + "-" + b) == "$" + a + "-" + b
  {
    var x := "-" + b;
    assert a + "-" + b == a + x;
    RawWordPrefix(a, x, [], false);
    assert [] + a == a;
    assert x[0] == '-' && x[1..] == b;
    assert RawScan(x, a, false) == Flush(a) + "-" + RewriteRaw(b);
    RawWord(b);
    Assoc(Flush(a), "-", b);
    Assoc("$" + a, "-", b);
  }

  /** A hyphen is a word boundary, so a status value such as `in-testing` is rewritten too. */
  lemma HyphenIsBoundary()
    ensures RewriteRaw("in-testing") == "$in-testing"
  {
    OperatorBeforeHyphen("in", "testing");
    assert "in" + "-" + "testing" == "in-testing";
    assert "$" + "in" + "-" + "testing" == "$in-testing";
  }
}
